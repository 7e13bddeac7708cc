# Proofs about LLVM's examples, analyses and tools

This project models parts of LLVM in Dafny and proves properties of the models. `dafny verify dfyconfig.toml` checks all of it.

* **BrainF, a compiler** (`BrainFLang`, `BrainFIR`, `BrainFTranslation`, `BrainFSsa`, `BrainFProgress`, `BrainFEmission`, `BrainFCompiler`, `BrainFPrograms`). The reference is an interpreter that goes through the text character by character. The compiler reads with one symbol of look-ahead, folds runs of commands and builds basic blocks with loop phis, which have a small-step semantics of their own. A successful compile is shown to be well-formed SSA and to behave like the text, step-indexed, so that programs that do not end are included. What it says of some families of texts (moves, counting, copying the input) is also proved of the compiled code, in terms of numbers and bytes alone.
* **The alias set tracker** (`AliasLocations`, `AliasPartitions`, `AliasMemory`, `AliasComponents`, `AliasSetModel`, `AliasSetTrackers`, `AliasSetRuns`). Sets that forward to each other, with reference counts, must- and may-alias degradation and saturation, are shown to do what a plain partition of the pointers does, to saturate exactly when that partition has too many pointers in may-alias groups, and to bring pointers together only where accesses may alias. Soundness is proved of partitions, about an arbitrary relation of conflicting locations that the oracle is right about: its own answers other than NoAlias are one instance (`AliasMemory.OwnAnswersAreConsistent` says of which oracles), overlap in memory is another.
* **Control flow walks** (`ControlFlow`, `Backedges`, `Reachability`). The depth-first search for back edges, which is shown to be a plain recursive search and to report edges none of which can be spared, and the budgeted search for paths that skips over loops. Dominators and loops are given by oracles that must be right about the graph.
* **The alias analysis aggregate** (`ModRefs`, `AAAggregation`). What calls really read and write is a set of addresses, each with the way the call came by it. An analysis is right if its answers hold of that; the aggregate is shown to answer exactly what its parts and its argument loops allow, said of the answers of the analyses alone, and to be right if all its parts are.
* **A barrier on a condition variable** (`WaitForThreads`). Every operation on the mutex, the condition and the two counters is a step of its own, and runs are all interleavings. A state machine stands in for the class, since its methods do not run to completion one at a time.
* **Exceptions** (`Leb128`, `Personality`, `ExceptionFrames`). The decoders and table walks of the personality routine, the generator of functions with catch clauses and a finally block, an interpreter for what it generates, and the two phases of unwinding over any nesting of such functions (section 1.6 of the Itanium C++ ABI: Exception Handling).
* **Tools** (`UnicodeCaseFold`, `ItaniumNames`, `McaChecks`, `AbTest`, `ShuffleSelect`). A generator of decision code for case folding, a parser for mangled nested names, which is shown to read back what is printed and to read nothing that is not there, the pruning of check prefixes, bisection against one-by-one search, and a generator of random vector instructions with their expected values.

Code that updates variables is modelled by methods with loops and by classes, and is proved against predicates over its inputs and old state; the lemmas are about those predicates.

`Wrappers` and `AliasResults` hold datatypes that several modules share.

Four results are about what the code does not do. A head that leaves BrainF's tape within a run of moves is not noticed (`BrainFLang.ExcursionsGoUnnoticed`). A must-alias set is only sound while its first pointer is its largest, which the comment "First entry of must alias must have maximum size" in `AliasSetTracker.cpp` asks for; an access that grows a tracked pointer can break that, also by way of the merge that follows it, and an alias is then missed (the runs of `AliasMemory.GrowthLosesAnAlias` and `AliasMemory.EmptyGrowthLosesAnAlias`). The guard `AliasPartitions.Guarded` compares the grown pointer with the first pointers of the sets that the access brings together; `AliasPartitions.AdditionIsSound` and `AliasMemory.GuardIsExact` show that it decides. The barrier does not test its condition again after a wait, so that with spurious wakeups a thread may pass early whenever there are workers (`WaitForThreads.SpuriousWakeupsBreakIt`; `WaitForThreads.NobodyPassesEarly` is about runs without them), and it is sure to release everybody only if the number of workers is the number waited for (`WaitForThreads.AllFinishIffNumbersAgree`). Asking one more alias analysis may set a bit that was not set without it: `AAAggregation.LocationAnswersShrink` and `AAAggregation.CallAnswersShrink` say exactly when, `AAAggregation.ReadOnlySetsRef` and `AAAggregation.OtherArgumentsSetMod` are instances.

## Model

| member | source | states |
|---|---|---|
| BrainFCompiler.Parse | src/llvm/examples/BrainF/BrainF.cpp:53-63 | compilation succeeds exactly for bracket-balanced texts; what it yields is well-formed SSA, in which the phi of a loop test has two entries and that of a loop exit one, and it behaves like the text on every input and every placement of the tape |
| BrainFTranslation.TranslationPreservesMeaning | src/llvm/examples/BrainF/BrainF.cpp:192-476 | a module laid out like the text ends when the text does, with the same tape, head, input position and output, and at every step shows nothing that the text does not come to show, also when neither ends |
| BrainFTranslation.Follow | src/llvm/examples/BrainF/BrainF.cpp:192-476 | after any number of steps of either side there is a later moment at which code and text are related |
| BrainFTranslation.Advance | src/llvm/examples/BrainF/BrainF.cpp:202-318 | a related pair of code and text advances to a related pair over every kind of command, with at least one step of each |
| BrainFTranslation.CheckedMoveRuns | src/llvm/examples/BrainF/BrainF.cpp:246-275 | the code of a folded move with bounds checking goes on in the next block if the summed head is on the tape, and otherwise shows the message and ends |
| BrainFTranslation.TestRuns | src/llvm/examples/BrainF/BrainF.cpp:432-463 | the loop test leaves through the exit phi on a zero cell and enters the body otherwise |
| BrainFTranslation.EnterRuns | src/llvm/examples/BrainF/BrainF.cpp:292-312 | control that enters a loop hands the current head to the loop phi |
| BrainFTranslation.ErrorRuns | src/llvm/examples/BrainF/BrainF.cpp:140-189 | the error block shows the message, frees the tape and ends |
| BrainFTranslation.CheckedCodeIsSafe | src/llvm/examples/BrainF/BrainF.cpp:118-275 | code compiled with bounds checking touches no memory off the tape, on any input |
| BrainFLang.ScansMeet | src/llvm/examples/BrainF/BrainF.cpp:292-312 | the two ends of a bracket pair, found by scanning forward or backward, find each other |
| BrainFLang.RunMoves | src/llvm/examples/BrainF/BrainF.cpp:361-380 | a maximal run of moves adds its sum to the head; with checking on it ends in the error exactly if that sum leaves the tape |
| BrainFLang.RunChanges | src/llvm/examples/BrainF/BrainF.cpp:340-359 | a run of changes with comments in between adds its sum to the cell modulo 256 |
| BrainFLang.RunComments | src/llvm/examples/BrainF/BrainF.cpp:418-421 | other characters change nothing |
| BrainFLang.CheckedProgramsStayOnTape | src/llvm/examples/BrainF/BrainF.cpp:246-275 | a checked program uses no cell off the tape on any input exactly if there is a tape or it does not begin with a command that needs a cell |
| BrainFLang.ExcursionsGoUnnoticed | src/llvm/examples/BrainF/BrainF.cpp:246-275 | a head that leaves the tape within a run of moves and comes back is not reported |
| BrainFPrograms.LeftMovesEnd | src/llvm/examples/BrainF/BrainF.cpp:124-128 | code compiled with checking from k moves to the left ends without the message exactly if k is at most half of the number of cells |
| BrainFPrograms.RightMovesEnd | src/llvm/examples/BrainF/BrainF.cpp:124-128 | from k moves to the right, exactly if there are none or k more than half of the cells are still on the tape |
| BrainFPrograms.CountIsWritten | src/llvm/examples/BrainF/BrainF.cpp:226-290 | code compiled from k plus or minus signs and a dot writes k or -k as a signed byte, and ends |
| BrainFPrograms.InputIsCopied | src/llvm/examples/BrainF/BrainF.cpp:209-312 | code compiled from ,[.,] writes its input up to the first zero byte, and ends |
| BrainFPrograms.FirstByteIsWritten | src/llvm/examples/BrainF/BrainF.cpp:209-244 | code compiled from ,. writes the first byte of its input, or -1 if there is none, and ends |
| BrainFSsa.SsaIsWellFormed | src/llvm/examples/BrainF/BrainF.cpp:292-470 | what is built under the invariant has one terminator per block, one phi entry per predecessor, one definition per register and definitions on every path to each use |
| BrainFSsa.WalkProvides | src/llvm/examples/BrainF/BrainF.cpp:303-463 | whatever a block counts on is defined along every walk that leads to it, so the current head always dominates the insertion point |
| BrainFSsa.JumpBackKeepsSsa | src/llvm/examples/BrainF/BrainF.cpp:434-441 | completing the loop phi with the back edge keeps the invariant |
| BrainFSsa.TerminateToNewKeepsSsa | src/llvm/examples/BrainF/BrainF.cpp:268-463 | ending a block into a new one with its phi keeps the invariant |
| BrainFEmission.ReadKeeps | src/llvm/examples/BrainF/BrainF.cpp:209-224 | emitting a read keeps the correspondence of code and text |
| BrainFEmission.WriteKeeps | src/llvm/examples/BrainF/BrainF.cpp:226-244 | emitting a write keeps it |
| BrainFEmission.ChangeKeeps | src/llvm/examples/BrainF/BrainF.cpp:278-290 | emitting a folded change keeps it |
| BrainFEmission.PlainMoveKeeps | src/llvm/examples/BrainF/BrainF.cpp:246-252 | emitting an unchecked folded move keeps it |
| BrainFEmission.CheckedMoveKeeps | src/llvm/examples/BrainF/BrainF.cpp:246-275 | emitting a checked folded move keeps it |
| BrainFEmission.OpenKeeps | src/llvm/examples/BrainF/BrainF.cpp:292-312 | opening a loop keeps it, with the loop entered in the layout |
| BrainFEmission.CloseKeeps | src/llvm/examples/BrainF/BrainF.cpp:426-466 | closing a loop keeps it and completes the loop in the layout |
| BrainFProgress.Finishes | src/llvm/examples/BrainF/BrainF.cpp:469-470 | with the last branch the finished code is a translation of the whole text |
| BrainFCompiler.BrainF.constructor | src/llvm/examples/BrainF/BrainF.cpp:65-190 | the header builds the tape, the footer and the error block and starts the correspondence |
| BrainFCompiler.BrainF.NextSymbol | src/llvm/examples/BrainF/BrainF.cpp:320-423 | the look-ahead reader delivers the next command, with runs folded into sums, and at most one symbol more |
| BrainFCompiler.TakeChar | src/llvm/examples/BrainF/BrainF.cpp:337-421 | one character is folded into the run being read, delivered, or put in the look-ahead |
| BrainFCompiler.BrainF.EmitRead | src/llvm/examples/BrainF/BrainF.cpp:209-224 | the builder extends the correspondence over a read |
| BrainFCompiler.BrainF.EmitWrite | src/llvm/examples/BrainF/BrainF.cpp:226-244 | the builder extends the correspondence over a write |
| BrainFCompiler.BrainF.EmitChange | src/llvm/examples/BrainF/BrainF.cpp:278-290 | the builder extends the correspondence over a run of changes |
| BrainFCompiler.BrainF.EmitMove | src/llvm/examples/BrainF/BrainF.cpp:246-275 | the builder extends the correspondence over a run of moves, checked or not |
| BrainFCompiler.BrainF.EmitCheckedMove | src/llvm/examples/BrainF/BrainF.cpp:253-274 | the builder extends the correspondence over a checked run of moves |
| BrainFCompiler.BrainF.BeginLoop | src/llvm/examples/BrainF/BrainF.cpp:292-310 | a loop is opened, with its phi pending |
| BrainFCompiler.BrainF.FinishLoop | src/llvm/examples/BrainF/BrainF.cpp:426-464 | the loop is closed; all other loops stay as they were |
| BrainFCompiler.BrainF.NestedLoop | src/llvm/examples/BrainF/BrainF.cpp:292-312 | a loop is compiled with everything inside it, or the brackets do not balance |
| BrainFCompiler.BrainF.WriteOut | src/llvm/examples/BrainF/BrainF.cpp:203-318 | a symbol is written out, or the brackets do not balance |
| BrainFCompiler.BrainF.Readloop | src/llvm/examples/BrainF/BrainF.cpp:192-476 | the rest of the program or loop body is compiled, or the brackets do not balance |
| BrainFCompiler.BrainF.EndLoop | src/llvm/examples/BrainF/BrainF.cpp:426-467 | a closing bracket ends the loop of this call, and is an error exactly outside of one |
| BrainFCompiler.BrainF.EndProgram | src/llvm/examples/BrainF/BrainF.cpp:469-475 | the end of the text completes the translation, and is an error exactly inside a loop |
| AliasSetRuns.AddAll | src/llvm/lib/Analysis/AliasSetTracker.cpp:327-620 | any additions make the partition that the locations make one by one, or saturate, exactly if after one of them more pointers than the threshold are in may-alias groups; any two locations that conflict are in one set, before saturation, if every addition keeps the guard or each pointer has one size, and after it all are; before it pointers are in one set only through answers that they may alias, and a set is a may-alias set only if two of its pointers were not told to must-alias; with a sensible oracle and guarded additions the sets are exactly the connected components of what may alias |
| AliasSetTrackers.AliasSetTracker.ConflictsTogether | src/llvm/lib/Analysis/AliasSetTracker.cpp:129-374 | in a sound tracker two requested locations that conflict are in one set, although must-alias sets are asked through their first pointer only |
| AliasSetTrackers.AliasSetTracker.AccessesRecorded | src/llvm/lib/Analysis/AliasSetTracker.cpp:608-620 | the set of a requested location says that it is accessed as requested, before saturation and after |
| AliasSetTrackers.AliasSetTracker.AccessesExact | src/llvm/lib/Analysis/AliasSetTracker.cpp:608-620 | until saturation a set is said to be read or written exactly if one of its pointers was requested to be |
| AliasSetTrackers.AliasSetTracker.AddPointer | src/llvm/lib/Analysis/AliasSetTracker.cpp:608-620 | the sets become the partition with the location added, or saturate, exactly if that has more pointers in may-alias groups than the threshold; the set of the pointer records the access; a sound tracker stays sound exactly if the guard holds or it saturates |
| AliasSetTrackers.AliasSetTracker.constructor | src/llvm/include/llvm/Analysis/AliasSetTracker.h:355 | an empty tracker meets the invariant and is sound |
| AliasSetTrackers.AliasSetTracker.GetAliasSetFor | src/llvm/lib/Analysis/AliasSetTracker.cpp:327-374 | the location is placed in the returned set, with the partition regrouped exactly as the oracle says |
| AliasSetTrackers.AliasSetTracker.GetKnown | src/llvm/lib/Analysis/AliasSetTracker.cpp:351-362 | a tracked pointer keeps its set; if its recorded size changes the sets that alias it are merged |
| AliasSetTrackers.AliasSetTracker.GetNew | src/llvm/lib/Analysis/AliasSetTracker.cpp:364-373 | a new pointer joins the merge of all sets that alias it, or a set of its own |
| AliasSetTrackers.AliasSetTracker.GetSaturated | src/llvm/lib/Analysis/AliasSetTracker.cpp:335-349 | a saturated tracker puts every pointer into its only live set |
| AliasSetTrackers.AliasSetTracker.AddToSet | src/llvm/lib/Analysis/AliasSetTracker.cpp:129-165 | a pointer joins a set, which stays must-alias only if the oracle says so; the assertion that it does not say NoAlias never fails; TotalMayAliasSetSize stays the summed size of the live may-alias sets |
| AliasSetTrackers.AliasSetTracker.AddToNewSet | src/llvm/lib/Analysis/AliasSetTracker.cpp:371-373 | a pointer that no set is said to alias gets a set of its own |
| AliasSetTrackers.AliasSetTracker.MergeSetIn | src/llvm/lib/Analysis/AliasSetTracker.cpp:52-111 | merging moves all pointers over, forwards the set and keeps contents, reference counts and TotalMayAliasSetSize; two must-alias sets stay one exactly if the oracle says so of their first pointers |
| AliasSetTrackers.AliasSetTracker.AliasesPointer | src/llvm/lib/Analysis/AliasSetTracker.cpp:191-214 | the answer for a set: its first pointer is asked for a must-alias set, all for a may-alias set |
| AliasSetTrackers.AliasSetTracker.MergeAliasSetsForPointer | src/llvm/lib/Analysis/AliasSetTracker.cpp:295-311 | exactly the sets that alias the location become one, the first of them |
| AliasSetTrackers.AliasSetTracker.MergeAllAliasSets | src/llvm/lib/Analysis/AliasSetTracker.cpp:571-606 | one set is left that does not forward, all others forward to it, and no freed set is visited |
| AliasSetTrackers.AliasSetTracker.ListSets | src/llvm/lib/Analysis/AliasSetTracker.cpp:576-581 | the sets alive, in the order of the list |
| AliasSetTrackers.AliasSetTracker.DropRef | src/llvm/include/llvm/Analysis/AliasSetTracker.h:190-194 | giving up a reference frees exactly the forwarding sets that nothing refers to any more; counts stay exact |
| AliasSetTrackers.AliasSetTracker.GetForwardedTarget | src/llvm/include/llvm/Analysis/AliasSetTracker.h:282-292 | returns the end of the forwarding chain and shortens the chain to it |
| AliasSetTrackers.AliasSetTracker.Redirect | src/llvm/include/llvm/Analysis/AliasSetTracker.h:286-290 | redirecting a forwarding set keeps all references exact |
| AliasSetTrackers.AliasSetTracker.GetAliasSet | src/llvm/include/llvm/Analysis/AliasSetTracker.h:114-123 | a pointer is made to name the end of its forwarding chain |
| AliasSetTrackers.AliasSetTracker.Resettle | src/llvm/include/llvm/Analysis/AliasSetTracker.h:116-121 | the reference of a pointer moves to the other set |
| AliasSetRuns.EachPointerListedOnce | src/llvm/lib/Analysis/AliasSetTracker.cpp:94-108 | merging loses no pointer and doubles none: each is listed once, in the set that it is in |
| AliasSetModel.RootBefore | src/llvm/lib/Analysis/AliasSetTracker.cpp:298-307 | before saturation a set forwards only to sets before it in the list, so chains end |
| AliasSetModel.MergeTotal | src/llvm/lib/Analysis/AliasSetTracker.cpp:76-81 | what merging adds to the summed size of may-alias sets |
| AliasSetModel.JoinTotal | src/llvm/lib/Analysis/AliasSetTracker.cpp:141-164 | what a joining pointer adds to the summed size of may-alias sets |
| AliasPartitions.AdditionIsSound | src/llvm/lib/Analysis/AliasSetTracker.cpp:129-374 | an addition to a sound partition leaves a sound one exactly if it keeps the guard: a pointer that grows stays as small as the first pointer of the must-alias group that it comes to be in, and so does every first pointer that is merged |
| AliasPartitions.UnguardedLoses | src/llvm/lib/Analysis/AliasSetTracker.cpp:351-359 | outside the guard a must-alias group is left whose first pointer is not the largest |
| AliasPartitions.GuardedLargest | src/llvm/lib/Analysis/AliasSetTracker.cpp:61-74 | inside it the first pointers of must-alias groups stay the largest |
| AliasPartitions.GuardedApart | src/llvm/lib/Analysis/AliasSetTracker.cpp:295-311 | inside it the grown pointer conflicts with no pointer of another group |
| AliasPartitions.NewIsSound | src/llvm/lib/Analysis/AliasSetTracker.cpp:364-373 | adding a pointer that is not tracked yet keeps a partition sound |
| AliasPartitions.AddedBegun | src/llvm/lib/Analysis/AliasSetTracker.cpp:61-74 | no addition, guarded or not, puts pointers that start apart into a must-alias group |
| AliasPartitions.GroupsGathered | src/llvm/lib/Analysis/AliasSetTracker.cpp:295-311 | gathering merges exactly the groups that alias the location into the first of them, which stays must-alias exactly if all are and the oracle says so of their first pointers |
| AliasPartitions.ConflictsTogether | src/llvm/lib/Analysis/AliasSetTracker.cpp:327-374 | in a run of additions that keep the guard all locations that conflict come together |
| AliasPartitions.FixedSizesAreGuarded | src/llvm/lib/Analysis/AliasSetTracker.cpp:351-359 | every addition keeps the guard if each pointer is always accessed with one size |
| AliasPartitions.NotMust | src/llvm/lib/Analysis/AliasSetTracker.cpp:61-74 | the first pointers of groups that do not conflict are never told to must-alias |
| AliasPartitions.UnaliasedIsApart | src/llvm/lib/Analysis/AliasSetTracker.cpp:191-214 | a group that is not said to alias a location holds no pointer that conflicts with it |
| AliasPartitions.JoinedFirst | src/llvm/lib/Analysis/AliasSetTracker.cpp:136-152 | the first pointer of a must-alias group stays its largest when a pointer joins |
| AliasPartitions.JoinedApart | src/llvm/lib/Analysis/AliasSetTracker.cpp:136-152 | pointers of different groups stay without conflict when a pointer joins |
| AliasMemory.RightIsConsistent | src/llvm/lib/Analysis/AliasSetTracker.cpp:191-214 | an oracle that is right about memory meets all that is asked of oracles |
| AliasMemory.OwnAnswersAreConsistent | src/llvm/lib/Analysis/AliasSetTracker.cpp:191-214 | the answers of an oracle other than NoAlias can be taken as the conflicts exactly if they are symmetric, monotone in the size, hold of two accesses through one pointer and agree about pointers that must alias |
| AliasSetRuns.OneGroupIsTogether | src/llvm/lib/Analysis/AliasSetTracker.cpp:298-307 | until saturation two pointers are in one set exactly if they are in one group of the partition |
| AliasComponents.GroupsAreComponents | src/llvm/lib/Analysis/AliasSetTracker.cpp:191-374 | with an oracle whose answers can be the conflicts, and guarded additions, two pointers are in one group exactly if chains of accesses that may alias connect them |
| AliasComponents.RunStaysDivided | src/llvm/lib/Analysis/AliasSetTracker.cpp:191-374 | whatever is added, no group has pointers on both sides of a division of the pointers across which nothing may alias |
| AliasComponents.RunKeepsMust | src/llvm/lib/Analysis/AliasSetTracker.cpp:51-157 | whatever is added, a group is a may-alias group only if two of its pointers were not told to must-alias |
| AliasSetTrackers.TotalFollows | src/llvm/lib/Analysis/AliasSetTracker.cpp:608-620 | until saturation the summed size of may-alias sets is the number of pointers in may-alias groups of the partition that the addition makes |
| AliasMemory.GuardIsExact | src/llvm/lib/Analysis/AliasSetTracker.cpp:351-359 | an addition keeps the guard exactly if afterwards no pointer that comes next, whatever it accesses, is told apart from a set that it overlaps |
| AliasMemory.GrowthLosesAnAlias | src/llvm/lib/Analysis/AliasSetTracker.cpp:191-211 | four requests after which two overlapping accesses are in different sets: the second pointer of a must-alias set grew past the first |
| AliasSetRuns.LostInTracker | src/llvm/lib/Analysis/AliasSetTracker.cpp:327-374 | in a tracker too these two runs end with overlapping accesses in different sets |
| AliasMemory.EmptyGrowthLosesAnAlias | src/llvm/lib/Analysis/AliasSetTracker.cpp:61-74 | four requests that end so because a pointer grew from an empty access and its set was merged into a smaller one |
| Backedges.FindFunctionBackedges | src/llvm/lib/Analysis/CFG.cpp:27-66 | computes what the recursive depth-first search computes, edges in the same order; visits exactly the blocks reachable from the entry; each reported edge is reported as often as it occurs and closes a cycle that has no other reported edge; and without the reported edges nothing reachable is on a cycle |
| Backedges.Ends | src/llvm/lib/Analysis/CFG.cpp:65-66 | when the stack is empty the walk has these properties |
| Backedges.GoesDown | src/llvm/lib/Analysis/CFG.cpp:61-64 | a path without reported edges leads to blocks that the walk left earlier |
| Backedges.StackReaches | src/llvm/lib/Analysis/CFG.cpp:57-60 | each block on the stack reaches the blocks above it |
| Backedges.Reports | src/llvm/lib/Analysis/CFG.cpp:52-54 | reporting an edge into the stack keeps the state of the walk |
| Backedges.Passes | src/llvm/lib/Analysis/CFG.cpp:48-54 | passing over a block that has been left keeps it |
| Backedges.Descends | src/llvm/lib/Analysis/CFG.cpp:48-60 | going down to a new block keeps it |
| Backedges.Ascends | src/llvm/lib/Analysis/CFG.cpp:61-64 | going up keeps it, and orders the block left behind all it leads to |
| Backedges.TreeReports | src/llvm/lib/Analysis/CFG.cpp:52-54 | the edges that the walk went down by are not reported, and each reported edge closes a cycle with them |
| Backedges.TreeEnds | src/llvm/lib/Analysis/CFG.cpp:65-66 | so no reported edge can be spared |
| Backedges.SearchSteps | src/llvm/lib/Analysis/CFG.cpp:46-54 | trying an edge to a block seen before is a step of the recursive search |
| Backedges.SearchDescends | src/llvm/lib/Analysis/CFG.cpp:57-60 | going down a level is a call of the recursive search |
| Backedges.SearchAscends | src/llvm/lib/Analysis/CFG.cpp:61-64 | going up is a return from it |
| Reachability.IsPotentiallyReachableFromMany | src/llvm/lib/Analysis/CFG.cpp:131-173 | no means that no path leads from the worklist to the stop block; yes means that one does unless the walk gave up; a yes comes exactly with a block that is the stop block, dominates it or shares an outermost loop with it; the walk goes past loops to their exits, and gives up exactly when it has been to 32 other blocks, none of which tells |
| Reachability.IsPotentiallyReachable | src/llvm/lib/Analysis/CFG.cpp:175-185 | the same from one block |
| Reachability.IsInstructionReachable | src/llvm/lib/Analysis/CFG.cpp:187-237 | no means that the second instruction cannot run after the first; yes means that it may, unless the first is in the entry block and the second is not, or the walk gave up, which takes 32 other blocks within reach; later in the block, or in a loop, the answer is a plain yes |
| Reachability.GetOutermostLoop | src/llvm/lib/Analysis/CFG.cpp:114-121 | the end of the chain of loops around a block, or none outside of loops |
| Reachability.LoopContainsBoth | src/llvm/lib/Analysis/CFG.cpp:124-129 | whether one outermost loop holds both blocks |
| Reachability.DominatorReaches | src/llvm/lib/Analysis/CFG.cpp:149-150 | a dominator of a reachable block reaches it |
| Reachability.SkipsLoop | src/llvm/lib/Analysis/CFG.cpp:160-164 | going on at the exits of the outermost loop keeps the walk complete |
| Reachability.Expands | src/llvm/lib/Analysis/CFG.cpp:165-167 | going on at the successors keeps the walk complete |
| Reachability.Exhausted | src/llvm/lib/Analysis/CFG.cpp:168-172 | when nothing is left to visit no path leads to the stop block |
| Reachability.GivesUp | src/llvm/lib/Analysis/CFG.cpp:139-158 | when the budget is used up as many blocks other than the stop block can be reached |
| Reachability.KeptExpands | src/llvm/lib/Analysis/CFG.cpp:160-167 | what the walk goes on with is the exits of the outermost loop, or the successors of a block outside of loops |
| Reachability.SuccessorsRun | src/llvm/lib/Analysis/CFG.cpp:207-220 | behind the second instruction of a block, running on is reaching the block from its successors |
| AAAggregation.AAResults.CallCallIsRight | src/llvm/lib/Analysis/AliasAnalysis.cpp:216-343 | if every analysis is right, the combined answer about two calls is: without Mod the first writes nothing that the second reads or writes, without Ref it reads nothing that the second writes |
| AAAggregation.AAResults.GetCallCall | src/llvm/lib/Analysis/AliasAnalysis.cpp:216-343 | Mod and Ref are answered exactly if, going by what each analysis says: every analysis sets the bit for the pair; for Mod the first call may write, for Ref it may read, or is said not to write, and one of the two may write; and if one call works through its arguments alone, some argument of it that is a pointer bears the dependence; so nothing is answered for two calls that only read |
| AAAggregation.AAResults.ThroughSecond | src/llvm/lib/Analysis/AliasAnalysis.cpp:254-299 | the loop over the arguments of the second call combines, with its early exit, exactly the dependences through them |
| AAAggregation.AAResults.ThroughFirst | src/llvm/lib/Analysis/AliasAnalysis.cpp:303-340 | the loop over the arguments of the first call does so for what the first call does through its own |
| AAAggregation.AAResults.CallLocationIsRight | src/llvm/lib/Analysis/AliasAnalysis.cpp:156-214 | if every analysis is right, the combined answer about a call and a location is |
| AAAggregation.AAResults.GetCallLocation | src/llvm/lib/Analysis/AliasAnalysis.cpp:156-214 | Mod and Ref are answered exactly if every analysis sets the bit for the pair, the call may write (or read), works not through its arguments alone or through one that may alias the location and carries the bit, and, for Mod, no analysis calls the location constant |
| AAAggregation.AAResults.Alias | src/llvm/lib/Analysis/AliasAnalysis.cpp:102-110 | the answer of the first analysis that says more than MayAlias, and MayAlias only if there is none |
| AAAggregation.AAResults.AliasIsRight | src/llvm/lib/Analysis/AliasAnalysis.cpp:102-110 | the combined alias answer is right if every analysis is |
| AAAggregation.AAResults.PointsToConstantMemory | src/llvm/lib/Analysis/AliasAnalysis.cpp:112-119 | true exactly if some analysis says so |
| AAAggregation.AAResults.ConstantIsRight | src/llvm/lib/Analysis/AliasAnalysis.cpp:112-119 | then nothing writes it |
| AAAggregation.AAResults.GetArgModRefInfo | src/llvm/lib/Analysis/AliasAnalysis.cpp:121-133 | each bit is set exactly if every analysis sets it |
| AAAggregation.AAResults.ArgIsRight | src/llvm/lib/Analysis/AliasAnalysis.cpp:121-133 | what is touched through an argument shows in its combined answer |
| AAAggregation.AAResults.GetModRefBehavior | src/llvm/lib/Analysis/AliasAnalysis.cpp:345-357 | each of the five parts is left exactly if every analysis leaves it, whatever the early exit |
| AAAggregation.AAResults.BehaviorIsRight | src/llvm/lib/Analysis/AliasAnalysis.cpp:345-357 | the combined behavior is right if every analysis is |
| AAAggregation.AAResults.WriteShows | src/llvm/lib/Analysis/AliasAnalysis.cpp:156-214 | a write to a byte of a location shows as Mod |
| AAAggregation.AAResults.ReadShows | src/llvm/lib/Analysis/AliasAnalysis.cpp:156-214 | a read of a byte of a location shows as Ref |
| AAAggregation.AAResults.ConflictShows | src/llvm/lib/Analysis/AliasAnalysis.cpp:216-343 | a write by the first call to what the second accesses shows as Mod |
| AAAggregation.AAResults.DependenceShows | src/llvm/lib/Analysis/AliasAnalysis.cpp:216-343 | a read by the first call of what the second writes shows as Ref |
| AAAggregation.AAResults.GetInstructionLocation | src/llvm/lib/Analysis/AliasAnalysis.cpp:395-538 | the answer for each kind of instruction, said of the answers of the analyses: both bits for what is ordered; for other accesses none if the locations are apart, no Mod for a load, no Ref for a store, and no Mod of constant memory but for atomic accesses; for a fence always Ref; nothing for what accesses no memory |
| AAAggregation.AAResults.InstructionIsRight | src/llvm/lib/Analysis/AliasAnalysis.cpp:395-538 | it is right if every analysis is |
| AAAggregation.AAResults.CanInstructionRangeModRef | src/llvm/lib/Analysis/AliasAnalysis.cpp:619-633 | whether some instruction of the range, ends included, may do what is asked about |
| AAAggregation.AAResults.RangeIsRight | src/llvm/lib/Analysis/AliasAnalysis.cpp:619-633 | if the answer is no, none does |
| AAAggregation.AAResults.GetInstructionCall | src/llvm/lib/Analysis/AliasAnalysis.cpp:135-154 | all or nothing for an instruction that is not a call, the answer about both for a call |
| AAAggregation.AAResults.InstructionCallIsRight | src/llvm/lib/Analysis/AliasAnalysis.cpp:146-153 | if nothing is answered, the call leaves the location of the instruction alone |
| AAAggregation.AAResults.CallsAnswer | src/llvm/lib/Analysis/AliasAnalysis.cpp:216-343 | the specified answer about two calls, said of the answers of the analyses alone |
| AAAggregation.AAResults.LocationAnswer | src/llvm/lib/Analysis/AliasAnalysis.cpp:156-214 | the same about a call and a location |
| AAAggregation.LocationAnswersShrink | src/llvm/lib/Analysis/AliasAnalysis.cpp:156-214 | one more analysis never sets Mod, and sets Ref exactly if Ref is in the new answer and the others said that the call does not read, but not that it does not write |
| AAAggregation.CallAnswersShrink | src/llvm/lib/Analysis/AliasAnalysis.cpp:216-343 | one more analysis sets a bit exactly if it is in the new answer and one of two things was so before: the first call was said not to read but not said not to write (for Ref), or its own arguments were asked, to no avail, and are not any more |
| AAAggregation.ReadOnlySetsRef | src/llvm/lib/Analysis/AliasAnalysis.cpp:160-170 | an analysis that says "only reads" sets Ref, where another says "only writes" |
| AAAggregation.OtherArgumentsSetMod | src/llvm/lib/Analysis/AliasAnalysis.cpp:254-343 | an analysis that says that the second call works through its arguments too sets Mod |
| WaitForThreads.AllFinishIffNumbersAgree | src/llvm/examples/ParallelJIT/ParallelJIT.cpp:166-233 | all threads are sure to finish, under every interleaving, exactly if as many are released as there are workers |
| WaitForThreads.NobodyPassesEarly | src/llvm/examples/ParallelJIT/ParallelJIT.cpp:166-191 | no thread passes before all workers have come |
| WaitForThreads.NobodyIsLeft | src/llvm/examples/ParallelJIT/ParallelJIT.cpp:166-233 | when no thread can go on, all are done: no wakeup is lost |
| WaitForThreads.AssertionHolds | src/llvm/examples/ParallelJIT/ParallelJIT.cpp:174 | the assertion on n and waitFor never fails, for any numbers |
| WaitForThreads.EveryRunEnds | src/llvm/examples/ParallelJIT/ParallelJIT.cpp:166-233 | the threads take at most nine steps each, whatever the interleaving |
| WaitForThreads.TooFewWorkers | src/llvm/examples/ParallelJIT/ParallelJIT.cpp:196-215 | with too few workers nobody is released |
| WaitForThreads.TooManyWorkers | src/llvm/examples/ParallelJIT/ParallelJIT.cpp:166-191 | with too many, some interleaving leaves a late one waiting |
| WaitForThreads.WhatIsLeft | src/llvm/examples/ParallelJIT/ParallelJIT.cpp:166-233 | where a run can go on no further, n is the number of workers that wait and waitFor is what a waiting releaser waits for; after a full release all is as at the start |
| WaitForThreads.SpuriousWakeupsBreakIt | src/llvm/examples/ParallelJIT/ParallelJIT.cpp:181-212 | with spurious wakeups some run lets a thread pass although a worker has not come, exactly if there are workers at all |
| WaitForThreads.StepKeeps | src/llvm/examples/ParallelJIT/ParallelJIT.cpp:166-233 | every step of every thread keeps the mutex exclusive and the three phases apart |
| ExceptionFrames.NestedFunctions | src/llvm/examples/ExceptionDemo/ExceptionDemo.cpp:948-1324 | for any depth and catch lists the exception is caught by the innermost function that lists its type, which is where the search phase found a handler; every finally block runs once; a caught exception is deleted once, any other never |
| ExceptionFrames.NestedReturns | src/llvm/examples/ExceptionDemo/ExceptionDemo.cpp:948-1324 | for any depth, if no exception is thrown, every function returns, every finally block runs once, and nothing is caught or deleted |
| ExceptionFrames.NothingAfterDeletion | src/llvm/examples/ExceptionDemo/ExceptionDemo.cpp:1182-1199 | the deletion follows the finally block of the catching function, and after it the functions outside return normally |
| ExceptionFrames.WrapperRuns | src/llvm/examples/ExceptionDemo/ExceptionDemo.cpp:1076-1324 | every way through a generated function passes the finally block once and ends as it should |
| ExceptionFrames.FunctionBuilder.CreateCatchWrappedInvokeFunction | src/llvm/examples/ExceptionDemo/ExceptionDemo.cpp:1076-1324 | the blocks of the generated function, with the selector routed to the clause of its number |
| ExceptionFrames.FunctionBuilder.CreateFinallyBlock | src/llvm/examples/ExceptionDemo/ExceptionDemo.cpp:948-1008 | appends the finally block, which goes on to the end unless an exception was thrown and not caught |
| ExceptionFrames.FunctionBuilder.CreateCatchBlock | src/llvm/examples/ExceptionDemo/ExceptionDemo.cpp:1024-1054 | appends a catch block, which marks the exception as caught |
| ExceptionFrames.FrameDecides | src/llvm/examples/ExceptionDemo/ExceptionDemo.cpp:596-762 | the search phase finds a handler in a generated function exactly if it lists the type; the cleanup phase enters it with the number of the clause |
| ExceptionFrames.CatcherIsInnermost | src/llvm/examples/ExceptionDemo/ExceptionDemo.cpp:1458-1510 | the catching function is the innermost that lists the type |
| ExceptionFrames.PadIsEntered | src/llvm/examples/ExceptionDemo/ExceptionDemo.cpp:1172-1222 | the landing pad that the table names for the invoke is where its unwind block is laid out |
| ExceptionFrames.ThrownTrace | src/llvm/examples/ExceptionDemo/ExceptionDemo.cpp:948-1324 | all that happens when an exception is thrown, in order: the functions inside let it pass, the innermost that lists its type catches it in the first clause for it and deletes it at its end, those outside return |
| ExceptionFrames.ReturningTrace | src/llvm/examples/ExceptionDemo/ExceptionDemo.cpp:948-1324 | all that happens without an exception: the functions return, the innermost first |
| Personality.HandleLsda | src/llvm/examples/ExceptionDemo/ExceptionDemo.cpp:596-762 | from the sites alone: the first site with a landing pad and the place in its range decides; in the cleanup phase its landing pad is installed with the number of the first clause for the type, or zero; in the search phase a handler is found exactly if there is such a clause; without such a site unwinding continues |
| Personality.DecisionIsFirst | src/llvm/examples/ExceptionDemo/ExceptionDemo.cpp:596-762 | the specified decision is that |
| Personality.SelectorIsFirst | src/llvm/examples/ExceptionDemo/ExceptionDemo.cpp:653-741 | the selector is one more than the place of the first clause for the type, or zero without one |
| Personality.PhasesAgree | src/llvm/examples/ExceptionDemo/ExceptionDemo.cpp:653-762 | a handler is found exactly if the cleanup phase installs a selector that is not zero, and that is the first clause of the type |
| Personality.HandleActionValue | src/llvm/examples/ExceptionDemo/ExceptionDemo.cpp:502-582 | the walk over a chain of action records returns the place of the first type info of the thrown type, counted from 1, or none |
| Personality.FirstMatchIsFirst | src/llvm/examples/ExceptionDemo/ExceptionDemo.cpp:527-577 | that place matches, and none before it does |
| Personality.EncodedChain | src/llvm/examples/ExceptionDemo/ExceptionDemo.cpp:527-577 | a laid out chain of type infos, ended by a cleanup, reads back as itself |
| Leb128.ReadULEB128 | src/llvm/examples/ExceptionDemo/ExceptionDemo.cpp:335-350 | reads the number that the seven-bit groups make and stops right behind it |
| Leb128.ReadSLEB128 | src/llvm/examples/ExceptionDemo/ExceptionDemo.cpp:359-379 | reads it as a two's complement number, sign-extended to 64 bits |
| Leb128.UnsignedRoundTrip | src/llvm/examples/ExceptionDemo/ExceptionDemo.cpp:335-350 | encodings of at most four bytes read back as the number, wherever they are |
| Leb128.SignedRoundTrip | src/llvm/examples/ExceptionDemo/ExceptionDemo.cpp:359-379 | the same for signed numbers |
| UnicodeCaseFold.Generator.Generate | src/llvm/utils/unicode-case-fold.py:95-117 | the generated decisions fold every character as the table says; the blocks are the table in order, and no two neighbours could have been one |
| UnicodeCaseFold.Generator.DumpBlock | src/llvm/utils/unicode-case-fold.py:60-93 | appends the decisions of a block: one test for a single mapping, else the lower bound and the simplest test that the stride, the shift and the first character allow |
| UnicodeCaseFold.Mappings | src/llvm/utils/unicode-case-fold.py:29-42 | the mappings of status C or S, all of them and in order, or failure exactly if two of them are the wrong way round or of one character |
| UnicodeCaseFold.RightAppends | src/llvm/utils/unicode-case-fold.py:60-93 | a block's decisions behind those of earlier blocks stay right, with the lower bound of single characters left out |
| UnicodeCaseFold.BlockFires | src/llvm/utils/unicode-case-fold.py:60-93 | a block's decisions map its characters, in all special forms |
| UnicodeCaseFold.BlockLeaves | src/llvm/utils/unicode-case-fold.py:60-93 | they leave others alone and say nothing of those behind |
| AbTest.Bisection.CheckBisect | src/llvm/utils/abtest.py:126-171 | ends for any test; every name outside the result fails alone, every name in it passes in some set, and each announced bound holds; where single names are to blame there are two tests, and at most two more for each of them and each halving after the first |
| AbTest.Bisection.TestPartition | src/llvm/utils/abtest.py:134-151 | a tested partition is known good, split later or a single name that fails; the bound covers what is left |
| AbTest.HalvesWork | src/llvm/utils/abtest.py:160-170 | halving a partition leaves less work, by two tests for each culprit |
| AbTest.CheckSequentially | src/llvm/utils/abtest.py:111-123 | exactly the names that pass alone |
| AbTest.BisectionAgainstSingles | src/llvm/utils/abtest.py:111-171 | bisection finds all that the sequential search finds, and nothing more if a pick fails exactly when it holds a culprit |
| ItaniumNames.NestedParsed | src/llvm/utils/extract_symbols.py:280-318 | parsing a printed nested name, of a substitution, qualifiers from r, V, K, R and O, names, constructors and destructors with or without template arguments, and an operator at the end, gives exactly these parts, each with whether it is a template, and the untouched rest |
| ItaniumNames.ArgsSkipped | src/llvm/utils/extract_symbols.py:246-276 | a printed template argument list, nested to any depth, is skipped and the rest left |
| ItaniumNames.CompsParsed | src/llvm/utils/extract_symbols.py:299-315 | the components of a name are read one by one |
| ItaniumNames.ReadsName | src/llvm/utils/extract_symbols.py:224-232 | a length-prefixed name is read by its length |
| ItaniumNames.ParseItaniumNestedName | src/llvm/utils/extract_symbols.py:280-318 | reads back every printed nested name; in one line, whatever it reads is spelled so: N, a substitution or none, qualifiers, the parts one behind the other with their argument lists, E and the rest; terminates on every string, with a strictly shorter rest, failure or the exception |
| ItaniumNames.NestedSpelled | src/llvm/utils/extract_symbols.py:280-318 | what is read as a nested name is spelled so: nothing is left out, read twice or made up |
| ItaniumNames.PartsSpelled | src/llvm/utils/extract_symbols.py:299-315 | the parts are spelled one behind the other up to an E |
| ItaniumNames.SkippedCloses | src/llvm/utils/extract_symbols.py:246-276 | what is left behind an argument list comes right after an E |
| ItaniumNames.NestedTooComplex | src/llvm/utils/extract_symbols.py:268-311 | a name is too complex if an expression or a literal is among the template arguments of a part, behind any arguments |
| ItaniumNames.ReadsOther | src/llvm/utils/extract_symbols.py:232-242 | a constructor or destructor name is its two characters, an operator all up to the E |
| ItaniumNames.SkipItaniumTemplate | src/llvm/utils/extract_symbols.py:246-276 | terminates on every string, with a strictly shorter rest, failure or the exception |
| ItaniumNames.NameSplitsOff | src/llvm/utils/extract_symbols.py:224-242 | the name and the rest are the whole of a line, in that order, or nothing is read and all is left |
| McaChecks.PruneBlock | src/llvm/utils/update_mca_test_checks.py:360-398 | which prefixes are kept, said of the runs: if prefixes that no run with another text has are in every run of a text, the least of them and no other; otherwise the least such prefix of each run that has one; it fails exactly if a text that is not empty has no run with such a prefix |
| McaChecks.PruneText | src/llvm/utils/update_mca_test_checks.py:365-382 | if some prefix is in all sets of a text and in none of another, one set, of all such prefixes; otherwise each set without the prefixes of other texts |
| McaChecks.KeepFor | src/llvm/utils/update_mca_test_checks.py:365-398 | the prefixes kept for one text are these, in order |
| McaChecks.LeastIsKept | src/llvm/utils/update_mca_test_checks.py:384-398 | the least prefixes of the pruned sets are these |
| McaChecks.PrunedMeans | src/llvm/utils/update_mca_test_checks.py:365-382 | no pruned set has a prefix of another text, and each set with a prefix of its own has one that was pruned within it |
| McaChecks.Collect | src/llvm/utils/update_mca_test_checks.py:350-356 | the distinct texts of a block with the prefix sets of their runs |
| McaChecks.BreakDownBlock | src/llvm/utils/update_mca_test_checks.py:143-202 | the lines with the common prefix are those that all texts have in the same place; these and the lines with a prefix of one text are, in order, that text's lines; nothing comes out exactly if the first lines differ or lines cannot be told apart |
| McaChecks.Flush | src/llvm/utils/update_mca_test_checks.py:177-202 | the batched lines come out, sorted by prefix, each batch in its order, and nothing else |
| McaChecks.AddToBatches | src/llvm/utils/update_mca_test_checks.py:195-198 | each text's line is batched for its own prefixes |
| McaChecks.PrunedPrefixesAreOwned | src/llvm/utils/update_mca_test_checks.py:360-411 | what pruning keeps is one text's only and not common to all, as breaking down needs it |
| ShuffleSelect.GenInsts | src/llvm/utils/shuffle_select_fuzz_tester.py:283-326 | whatever is chosen, instructions use only what is defined before them, one value is left, its lanes are those computed when undefined lanes stay undefined, and however undefined lanes are resolved the instructions compute it but for its undefined lanes |
| ShuffleSelect.RemovesOperands | src/llvm/utils/shuffle_select_fuzz_tester.py:289-324 | a round takes out exactly the two operands and puts in the value computed from them |
| ShuffleSelect.CalcShuffle | src/llvm/utils/shuffle_select_fuzz_tester.py:146-163 | the lanes of a shuffle |
| ShuffleSelect.CalcSelect | src/llvm/utils/shuffle_select_fuzz_tester.py:180-196 | the lanes of a select |
| ShuffleSelect.Extends | src/llvm/utils/shuffle_select_fuzz_tester.py:295-320 | an instruction whose expected lanes are those its mask takes from its operands keeps all expectations true and exact |
| ShuffleSelect.GenShufMask | src/llvm/utils/shuffle_select_fuzz_tester.py:259-267 | indices of two vectors, or undefined |
| ShuffleSelect.GenSelMask | src/llvm/utils/shuffle_select_fuzz_tester.py:272-280 | choices between two vectors, or undefined |

## Left out

- AddPointer: what becomes of a tracker that is no longer sound is stated only as the partition that it has, and that saturation makes it sound again.
- AdditionIsSound: oracles are asked to be symmetric, monotone in the size, right about MustAlias, to let a pointer conflict with itself, which sets the `undef` quirk of alias analysis aside, and empty accesses with nothing; the invariant of the tracker and its partition do not need that.
- GroupsAreComponents: asks that the oracle's own answers can be the conflicts; `RunStaysDivided` and `RunKeepsMust` ask nothing of oracles.
- MergeSetIn: forwarding sets are named by numbers in the order of their creation instead of by address; AA metadata tags, unknown instructions, `deleteValue` and `copyValue` are not part of this model.
- Redirect: the reference to the old target is dropped before the new one is stored, in the source the store comes last; nothing looks at the pointer in between.
- NextSymbol: the input operator of the source skips white space, here it is a comment like any other character; sums of more than 2^31 commands and pointers that wrap around are not modelled.
- EndLoop: where the source prints a message and aborts, the compilation fails.
- BeginLoop: the loop phi is made together with its block, and the back edge and the phi entry for it in one step.
- IsInstructionReachable: the entry block has no predecessors, as LLVM requires of functions; an answer yes from the entry block is not justified by a path, as in the source.
- FindFunctionBackedges: successors are numbered blocks in the order of the terminator; what the walk keeps its sets in is not modelled.
- GetCallCall: the Must bit is computed as in the source, since the early exits compare it, but nothing is stated about it.
- GetCallLocation: nothing is stated about the Must bit.
- ThroughFirst: nothing is stated about the Must bit.
- ThroughSecond: nothing is stated about the Must bit.
- GetInstructionLocation: locations without a pointer, and `callCapturesBefore`, are not modelled; loads from constant memory do not count as accesses, as the interface says.
- AllFinishIffNumbersAgree: printing, the destructor and errors of the thread library are not modelled, and of the reuse of the object only that a full release leaves it as it was; spurious wakeups are excluded here and are the subject of `SpuriousWakeupsBreakIt`.
- ReadULEB128: numbers of more than four bytes, where the source shifts an int too far; disjoint bits are added instead of or-ed.
- ReadSLEB128: numbers of more than four bytes, likewise.
- HandleActionValue: type infos are looked up in a table by number; encoded pointers and filters are not modelled.
- HandleLsda: the header and the fields of the call-site table come decoded.
- NestedFunctions: any exception table with the clauses in order and a cleanup will do, emitting it is not modelled; the harness outside catches whatever is left, so that the search phase does not fail.
- CreateCatchWrappedInvokeFunction: types, names and printing are reduced to marks in a trace.
- Generate: the text of the generated function and the lines of the database are modelled as records; the pattern that picks the lines is not.
- NestedParsed: an operator is printed last, since the parser takes all up to the next E for its name; one that could be read as a qualifier, a substitution, a name or a template argument list is not printed where it would be.
- ParseItaniumNestedName: digits are ASCII digits; what the tool does with the parsed names is not modelled.
- PruneBlock: prefixes are numbered in their sorted order; warnings, the alignment of blocks (`_align_matching_blocks`) and the writing of the file are not modelled.
- BreakDownBlock: texts come split into lines, as many for each, which the caller checks.
- CheckBisect: the number of tests is bounded for tests that fail exactly when a culprit is picked, for others only by the announced bounds; a test depends on the set of names picked from B only; running tests and the sanity check are not modelled.
- GenInsts: random choices are arbitrary choices; types, names of inputs and the printed program are not modelled; an undefined select bit may bring out any value.
- `GetSuccessorNumber`, `isCriticalEdge`, the pass registration code, and the remaining files of the repository would add easy members only.

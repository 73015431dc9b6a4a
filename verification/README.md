# A model of a Lua 5.1 core and of a K&R heap

This project models, in Dafny, the parts of the repository's Lua interpreter in
which mistakes would be hardest to see, and the kernel's own `malloc` and
`free`, and proves what they are for. `dafny verify dfyconfig.toml` checks all
of it.

Code that changes things in place is written in place: classes with the
source's fields, loops where the source has loops, arrays where it has arrays.
Each such method is proved against a function of the old state, and the
theorems are proved about those functions, for all inputs, all states and all
runs.

| part | files | main results |
|---|---|---|
| incremental collector | `Gc*.dfy`, `Collector.dfy`, `MarkBits.dfy` | `GcRun.SafeRun`: no interleaving of mutator and collector frees a reachable object. `GcFull.FullGcExact` and `GcCycle.StepsCollect`: a full collection, and steps alone, keep exactly what is reachable or fixed. `GcEffects.ApplyEffect`: what every event leaves to be read |
| pattern matching | `Pattern*.dfy`, `Matcher.dfy`, `Search.dfy` | `PatternSpec.FirstMatchIsPreferred`: backtracking with undone captures finds the preferred match of a declarative relation; `PatternText.MeansItsParts`: the text of a pattern means what its parts mean; `Search.GsubSubstitutes`: what a substitution replaces |
| boolean and jump code | `Bytecode.dfy`, `Code*.dfy`, `JumpLists.dfy` | `CodeExpr.ExpressionToNextReg`: one-pass code with patch lists computes short-circuit evaluation on the machine |
| lexical scope | `Scope*.dfy`, `FuncStates.dfy` | `ScopeSim.CompiledRuns`: flat closures over registers run as lexical scope with shared variables says; `ScopeOrder.RaceExactly` and `OrderIrrelevant`: when the order of a sum's operands matters |
| tables | `HashPart.dfy`, `Table*.dfy`, `LuaTable.dfy` | `LuaTable.Table.Put` and `Rehash`: the hybrid table is a finite map, and growth always makes room |
| bytecode checker | `BytecodeCheck.dfy`, `BytecodeAccept.dfy` | `BytecodeCheck.SoundExactly` and `CheckedTouches`: exactly which accepted code is never left, and that it touches only what is there; `BytecodeAccept.AcceptsCode`: exactly which code is accepted |
| operator precedence | `Precedence.dfy`, `Grammar.dfy` | `Grammar.ReadsDerived`: the parser with its priority table reads exactly the language of the manual's ranks, with its trees; `Precedence.PrintedReadsBack` |
| heap | `HeapList.dfy`, `HeapAlloc.dfy` | `HeapAlloc.Heap.Malloc` and `Free`: the free list stays ordered and coalesced, and every unit is accounted for |

How the collector is modelled: a heap is a map from addresses to objects, a
state holds the colours, the lists and the phase. An object is dead when it
carries the other white. The invariant has a structure part (string table, root
list, open upvalues in strictly falling order and in `uvhead`), a liveness part
(live objects lead to live objects only) and a part for each phase. Threads and
open upvalues are never black; dead strings and dead open upvalues may be found
again and come back to life.

How scopes are modelled: `ScopeLang` is the language as the reference manual
describes it, with an environment of named variables and a store;
`ScopeCode` is what the parser computes, and `ScopeParser` computes it in
place; `ScopeVm` is the machine. Both runs take an amount of
fuel, spent at calls and loop iterations, so a program that does not end runs
out of it on both sides. A sum whose left operand is a local variable leaves it
in its register, so OP_ADD reads it after the right operand has run. The manual
does not fix the order; `ScopeLang` takes it as a parameter, `CompiledRuns` is
about the order of the code, and `ScopeOrder` says when the orders differ.
Nested levels of the parser and temporary registers are counted as the code
counts them; both make a program fail to compile.

Where the code and its documentation differ, the code is followed. `BLOCK_PTR`
and `PTR_BLOCK` (src/libc/stdlib.c:47-48) are taken as the inverse pair they
are meant to be.

## Model

| member | source | states |
|---|---|---|
| `GcRun.SafeRun` | lua-5.1/src/lgc.c:499-706 | After any run of mutator events (allocation, stores with their barriers, interning, opening and closing upvalues, closures, calls and returns) and collector steps, in any order, the invariant holds, every reachable object is in the heap and not due to be swept, and no next event of any kind frees one |
| `GcRun.SafeFromStart` | lua-5.1/src/lgc.c:499-706 | The same for every run that begins in the state `lua_newstate` creates, which `InitialInv` shows to meet the invariant |
| `GcRun.ApplyInv` | lua-5.1/src/lgc.c:554-706 | Each single event, mutator or collector, keeps the invariant |
| `GcRun.ReachableSurvives` | lua-5.1/src/lgc.c:376-426 | No event frees an object that is reachable when it happens |
| `GcRun.InitialInv` | lua-5.1/src/lgc.c:499-510 | The first state satisfies the invariant |
| `GcInvariant.ReachableIsLive` | lua-5.1/src/lgc.h:75-79 | What the roots reach is in the heap and never carries the other white |
| `GcStep.SingleStepInv` | lua-5.1/src/lgc.c:554-603 | Every collector step, in every phase, keeps the tri-colour, sweep and structure invariants |
| `GcStep.SingleStepKeeps` | lua-5.1/src/lgc.c:554-603 | A collector step leaves the contents of every object that is not dead as they were; at most an upvalue closes |
| `GcStep.SingleStepProgress` | lua-5.1/src/lgc.c:554-603 | Outside `GCSpause` each step makes the cycle shorter: later phase, fewer white or unswept objects, or less work left |
| `GcCycle.StepsCollect` | lua-5.1/src/lgc.c:554-603 | Collector steps alone, from any state of the invariant in any phase, reach after finitely many of them a heap of exactly the objects that were reachable or fixed at the start, all current white, the reachable ones reading as before |
| `GcCycle.CycleBegins` | lua-5.1/src/lgc.c:558-561 | A step in `GCSpause` ends in `GCSpropagate` with the main thread, its globals, the registry and the basic metatables not white |
| `GcCycle.CycleCollects` | lua-5.1/src/lgc.c:554-603 | The whole cycle that such a step begins frees exactly what is neither reachable nor fixed |
| `GcCycle.CycleEnds` | lua-5.1/src/lgc.c:562-599 | A cycle in any phase comes to its end; it adds no object, frees no reachable one, and leaves what is reachable so |
| `GcStep.RunMark` | lua-5.1/src/lgc.c:277-320 | From any marking state the gray list drains, `atomic` runs on an empty list, and the cycle goes on from there to its end |
| `GcStep.RunSweep` | lua-5.1/src/lgc.c:405-426 | From any sweeping state the sweep ends, keeps every live object, and leaves all objects current white |
| `GcStep.MarkRootReady` | lua-5.1/src/lgc.c:499-510 | At the end of a cycle `markroot` can start the next one and its result satisfies the invariant |
| `GcFull.FullGcExact` | lua-5.1/src/lgc.c:632-655 | A full collection begun in any phase ends in `GCSpause` with exactly the reachable and the fixed objects in the heap, all current white, the reachable ones reading as before |
| `GcFull.MarkPhaseExact` | lua-5.1/src/lgc.c:523-551 | After a complete mark phase an object is live if and only if it is reachable or fixed |
| `GcAtomic.AtomicInv` | lua-5.1/src/lgc.c:523-551 | `atomic`, which marks the main and running threads again, re-traverses open upvalues and `grayagain`, and flips the white, keeps the invariant |
| `GcAtomic.AtomicLive` | lua-5.1/src/lgc.c:523-551 | After the flip the dead objects are exactly those left white and not fixed, and what is live is closed under references |
| `GcMark.MarkAllStep` | lua-5.1/src/lgc.c:69-112 | Marking values leaves none of them white, whitens nothing, and changes only marks and gray lists |
| `GcMark.MarkAllBound` | lua-5.1/src/lgc.c:69-112 | Marking reaches nothing outside the closure of what it is given |
| `GcMark.PropagateAllCover` | lua-5.1/src/lgc.c:277-332 | Draining the gray list keeps every marked object marked and ends with all of them traversed or waiting in `grayagain` |
| `GcCollect.PropagateMarkInv` | lua-5.1/src/lgc.c:277-320 | Traversing one gray object keeps the invariant; threads go to `grayagain` and stay gray |
| `GcCollect.MarkRootInv` | lua-5.1/src/lgc.c:499-510 | Starting a cycle from an all-white heap gives a state of the marking invariant |
| `GcCollect.SweepOneInv` | lua-5.1/src/lgc.c:405-426 | Sweeping one object of the root list, with the open upvalues of a thread, keeps the invariant and all live objects, and makes the sweep shorter |
| `GcCollect.SweepRootsInv` | lua-5.1/src/lgc.c:405-426 | The same for any number of objects in one step |
| `GcCollect.CloseAllInv` | lua-5.1/src/lfunc.c:96-112 | Closing all upvalues of a thread at or above a level keeps the invariant, leaves none open there, and changes nothing else of the thread |
| `GcSweep.CloseOneInv` | lua-5.1/src/lgc.c:691-706 | Closing one upvalue keeps the invariant in every phase: a dead one is freed, a live one gets the colour that its phase and value allow |
| `GcStrings.InternInv` | lua-5.1/src/lstring.c:75-93 | Interning gives a live string with the characters asked for; if there was one, dead or alive, that one, recoloured; no other object changes |
| `GcStrings.ResurrectInv` | lua-5.1/src/lstring.c:82-91 | An object with the other white may be made live again during a sweep as long as what it refers to is live |
| `GcStrings.SweepBucketInv` | lua-5.1/src/lgc.c:572-580 | Sweeping one chain of the string table keeps the invariant and every live string |
| `GcStrings.ResizeInv` | lua-5.1/src/lstring.c:22-47 | Rehashing the string table keeps the invariant and changes nothing but the chains |
| `GcStrings.ResizeStrings` | lua-5.1/src/lstring.c:22-47 | After a rehash every string is again once in the chain of its hash |
| `GcTableSize.InternLoad` | lua-5.1/src/lstring.c:50-72 | Outside of a string sweep a table with no more strings than chains stays one; it grows only when it is full, and then to twice its size |
| `GcTableSize.SweepSizes` | lua-5.1/src/lgc.c:429-441 | The string table halves at the end of a sweep and only then, exactly if fewer than a quarter of its chains would be needed |
| `GcEffects.ApplyEffect` | lua-5.1/src/lgc.c:554-706 | What every event leaves to be read: stack, roots, fixed objects and the contents of each object after it, by those before it, for every mutator event; a collector step adds nothing, changes no object but to close an upvalue, and keeps what is reachable |
| `GcEffects.StoreUpvalEffect` | lua-5.1/src/lvm.c:446-451 | A store through an upvalue, closed, or open on a live or dead thread, is read there afterwards, and every upvalue of another cell reads as before |
| `GcEffects.StoreFieldEffect` | lua-5.1/src/lgc.c:658-668 | The heap after a store is the old heap with the new object in its place |
| `GcEffects.CloseEffect` | lua-5.1/src/lfunc.c:96-112 | Closing upvalues leaves stack, globals and roots, and every other object reads as before; none is open at or above the level |
| `GcEffects.InternEffect` | lua-5.1/src/lstring.c:75-93 | The string asked for is on top of the stack, an old object if there was one, and nothing else is different |
| `GcEffects.ClosureEffect` | lua-5.1/src/lvm.c:718-737 | The new closure is in its register, with its environment and prototype, and each upvalue is bound as its capture says; nothing else is different |
| `GcMutator.AllocInv` | lua-5.1/src/lgc.c:682-688 | A new object, linked with the current white, keeps the invariant in every phase |
| `GcMutator.SetThreadInv` | lua-5.1/src/lgc.c:256-274 | Changing a stack without a barrier keeps the invariant: threads are never black |
| `GcMutator.StoreTableInv` | lua-5.1/src/lgc.h:90-97 | A store in a table behind `luaC_barriert` is done and keeps the invariant in every phase |
| `GcMutator.StoreFieldInv` | lua-5.1/src/lgc.c:658-668 | A store in any other object behind `luaC_barrier` keeps the invariant in every phase |
| `GcClosures.FindUpvalInv` | lua-5.1/src/lfunc.c:53-79 | `luaF_findupval` gives the live open upvalue of that thread and level, the old one if there was one, and keeps the invariant and the order of the list |
| `GcClosures.FindUpvalShares` | lua-5.1/src/lfunc.c:53-79 | A second search for the same level returns the same cell and changes nothing |
| `GcClosures.CloseTransparent` | lua-5.1/src/lfunc.c:96-112 | `luaF_close` changes no value read through any live upvalue, and afterwards none of the thread is open at or above the level |
| `GcClosures.MakeClosureInv` | lua-5.1/src/lvm.c:718-737 | OP_CLOSURE keeps the invariant although it allocates, and each upvalue of the new closure is the local or the enclosing upvalue that its capture names |
| `MarkBits.Recolour` | lua-5.1/src/lgc.h:38-88 | On the mark byte itself, each recolouring macro gives the intended single colour and leaves the other bits alone |
| `MarkBits.SweepTest` | lua-5.1/src/lgc.h:74-75 | The mask test of the sweep spares exactly the fixed objects and those not of the other white |
| `MarkBits.FlipWhite` | lua-5.1/src/lgc.h:74 | `otherwhite` flips the current white and keeps the bit that protects fixed objects |
| `Collector.Global.constructor` | lua-5.1/src/lgc.c:499-510 | The fields of a new state are those of the first state of every run |
| `Collector.Global.ReallyMarkObject` | lua-5.1/src/lgc.c:69-112 | Marking in place, recursing through userdata and closed upvalues, leaves the colours and gray list that the marking function defines |
| `Collector.Global.MarkValues` | lua-5.1/src/lgc.c:69-112 | Marking a list of values one after the other in place is the marking of all of them |
| `Collector.Global.PropagateOne` | lua-5.1/src/lgc.c:277-320 | One traversal in place is one step of propagation |
| `Collector.Global.PropagateGray` | lua-5.1/src/lgc.c:323-332 | The loop ends, and leaves what draining the gray list defines |
| `Collector.Global.RemarkUpvalues` | lua-5.1/src/lgc.c:513-520 | Walking `uvhead` marks the values of the gray open upvalues and nothing else |
| `Collector.Global.MarkRoots` | lua-5.1/src/lgc.c:499-510 | The roots are marked and the old gray lists dropped, as the start of a cycle is defined |
| `Collector.Global.AtomicFirstHalf` | lua-5.1/src/lgc.c:523-534 | The first half of `atomic` in place |
| `Collector.Global.AtomicTraversals` | lua-5.1/src/lgc.c:523-541 | All traversals of `atomic` in place |
| `Collector.Global.AtomicStep` | lua-5.1/src/lgc.c:523-551 | `atomic` in place, white flip and sweep start included |
| `Collector.Global.SweepStrings` | lua-5.1/src/lgc.c:405-426 | The sweep of one string chain frees its dead strings, recolours the others, and keeps the count of strings right |
| `Collector.Global.SweepOpenList` | lua-5.1/src/lgc.c:405-426 | The sweep of a thread's open list frees the dead upvalues and keeps the others in order |
| `Collector.Global.SweepRootObject` | lua-5.1/src/lgc.c:405-426 | One turn of the sweep loop in place |
| `Collector.Global.SweepRootList` | lua-5.1/src/lgc.c:405-426 | At most so many turns, as the sweep step is defined |
| `Collector.Global.FreeObject` | lua-5.1/src/lgc.c:376-402 | Freeing an object closes the upvalues of a thread and takes an open upvalue out of `uvhead` |
| `Collector.Global.LinkUpval` | lua-5.1/src/lgc.c:691-706 | The closed upvalue enters the root list with the colour its phase allows |
| `Collector.Global.CloseUpvals` | lua-5.1/src/lfunc.c:96-112 | The loop of `luaF_close` in place |
| `Collector.Global.CloseFirst` | lua-5.1/src/lfunc.c:100-110 | One turn of that loop: a dead upvalue is freed, a live one takes its value |
| `Collector.Global.ResizeTable` | lua-5.1/src/lstring.c:22-47 | Relinking chain by chain gives the table that rehashing defines |
| `Collector.Global.MoveBucket` | lua-5.1/src/lstring.c:34-46 | Every string of one chain goes in front of the chain of its hash |
| `Collector.Global.InternString` | lua-5.1/src/lstring.c:75-93 | The lookup and the insertion in place are interning as defined, and the count of strings stays right |
| `Collector.Global.AddString` | lua-5.1/src/lstring.c:50-72 | A new string in place, with the resize when the table is full |
| `Collector.Global.SweepStepObjects` | lua-5.1/src/lgc.c:582-591 | The sweep phase of a step in place |
| `Collector.Global.Step` | lua-5.1/src/lgc.c:554-603 | One collector step in place is the step whose safety and progress are proved |
| `Collector.Global.FullCollection` | lua-5.1/src/lgc.c:632-655 | `luaC_fullgc` in place is the full collection that is proved exact |
| `Collector.Global.AbandonMarking` | lua-5.1/src/lgc.c:633-641 | A cycle that is still marking is abandoned: its gray lists are dropped and everything is swept |
| `Collector.Global.StepUntil` | lua-5.1/src/lgc.c:642-651 | Steps are repeated until the phase is reached; the loop ends |
| `Collector.Global.NewObject` | lua-5.1/src/lgc.c:682-688 | A new object in place |
| `Collector.Global.StoreInTable` | lua-5.1/src/lgc.c:671-679 | A table store with the back barrier in place |
| `Collector.Global.StoreInObject` | lua-5.1/src/lgc.c:658-668 | A store with the forward barrier in place |
| `Collector.Global.SearchOpen` | lua-5.1/src/lfunc.c:57-66 | The search stops at the first upvalue not above the level |
| `Collector.Global.FindUpvalue` | lua-5.1/src/lfunc.c:53-79 | Search, resurrection and creation in place are the function that is proved to share cells |
| `Collector.Global.AddOpenUpval` | lua-5.1/src/lfunc.c:67-79 | A new open upvalue enters the thread's list at its place and `uvhead` |
| `PatternSpec.FirstMatchIsPreferred` | lua-5.1/src/lstrlib.c:364-439 | Backtracking fails exactly when no choice of repetition counts makes the pattern match, and what it finds is the match of the choice that greedy and lazy order prefer, with its captures |
| `PatternSpec.PrefersIsTotal` | lua-5.1/src/lstrlib.c:300-325 | Of two different choices that match exactly one is preferred, so the preferred match is unique |
| `PatternSpec.MatchesExactly` | lua-5.1/src/lstrlib.c:364-439 | For a well-formed pattern: found if and only if some choice matches, failed if and only if none does |
| `PatternSpec.WellFormedNoError` | lua-5.1/src/lstrlib.c:201-222 | A well-formed pattern raises no error, whatever the subject |
| `PatternSpec.BalancedMeaning` | lua-5.1/src/lstrlib.c:280-297 | The counting of `%b` finds the first balanced end, if there is any |
| `Matcher.MatchState.DoMatch` | lua-5.1/src/lstrlib.c:364-439 | The in-place matcher returns what the specification returns; when it succeeds the captures are that match's, when it fails `level` and the captures below it are as before |
| `Matcher.MatchState.MatchItem` | lua-5.1/src/lstrlib.c:411-437 | One item and its repetition, in place |
| `Matcher.MatchState.MatchEscape` | lua-5.1/src/lstrlib.c:377-409 | `%b`, `%f` and back references, in place |
| `Matcher.MatchState.MatchFrontier` | lua-5.1/src/lstrlib.c:385-397 | The frontier item |
| `Matcher.MatchState.MatchBalance` | lua-5.1/src/lstrlib.c:280-297 | `%b` in place |
| `Matcher.MatchState.MaxExpand` | lua-5.1/src/lstrlib.c:300-312 | Greedy repetition tries the counts from the longest down |
| `Matcher.MatchState.MinExpand` | lua-5.1/src/lstrlib.c:315-325 | Lazy repetition tries them from the shortest up |
| `Matcher.MatchState.StartCapture` | lua-5.1/src/lstrlib.c:328-339 | A capture is opened, and undone if the rest fails |
| `Matcher.MatchState.EndCapture` | lua-5.1/src/lstrlib.c:342-350 | A capture is closed, and opened again if the rest fails |
| `Matcher.MatchState.MatchCapture` | lua-5.1/src/lstrlib.c:353-361 | A back reference, with its error cases |
| `Matcher.MatchState.CaptureToClose` | lua-5.1/src/lstrlib.c:193-198 | The last capture still open, or none |
| `Matcher.FindItemEnd` | lua-5.1/src/lstrlib.c:201-222 | `classend` finds the end of a single-character item or reports the malformed pattern |
| `Matcher.MatchBracketClass` | lua-5.1/src/lstrlib.c:244-264 | The scan of a bracket class decides membership in the set it denotes |
| `Matcher.SingleMatch` | lua-5.1/src/lstrlib.c:267-277 | The test of one character against one item |
| `PatternText.MeansItsParts` | lua-5.1/src/lstrlib.c:364-439 | For every pattern written from parts (captures, positions, `%b`, `%f`, back references, classes and sets with or without suffix, final dollar): what the matcher finds the parts take, with those captures, and where it fails they take nothing |
| `PatternText.TextRemains` | lua-5.1/src/lstrlib.c:364-439 | The whole text of a list of parts is such a pattern |
| `PatternText.TakesReplay` | lua-5.1/src/lstrlib.c:364-439 | Whatever the parts take, the text of the pattern takes with some choice of counts |
| `PatternText.ReplayTakes` | lua-5.1/src/lstrlib.c:364-439 | The converse for every choice of counts |
| `PatternText.PartReadAs` | lua-5.1/src/lstrlib.c:364-437 | The text of each part is read as that part, up to its own end, with its own repetition |
| `PatternText.ClassMeans` | lua-5.1/src/lstrlib.c:267-277 | The text of a single-character class ends where it does and covers what the class covers |
| `PatternText.InSetMeans` | lua-5.1/src/lstrlib.c:244-264 | The text of a set covers exactly the characters of its ranges, single characters and classes |
| `PatternText.SetEndMeans` | lua-5.1/src/lstrlib.c:208-217 | The bracket that ends a set is the one behind its elements, a leading one and escaped ones excluded |
| `PatternText.ClassUnions` | lua-5.1/src/lstrlib.c:225-241 | Which characters `%l`, `%u`, `%a`, `%w` and `%c` cover |
| `PatternText.ClassLists` | lua-5.1/src/lstrlib.c:225-241 | Which characters `%d`, `%s`, `%x` and `%z` cover |
| `PatternText.Punctuation` | lua-5.1/src/lstrlib.c:225-241 | Which characters `%p` covers |
| `PatternText.ClassComplements` | lua-5.1/src/lstrlib.c:225-241 | A class letter in upper case covers the others; what is no class letter stands for itself |
| `Search.FindMatch` | lua-5.1/src/lstrlib.c:494-534 | The first start position at which the pattern matches or raises an error decides; before it every position fails |
| `Search.MemFind` | lua-5.1/src/lstrlib.c:443-461 | The first occurrence of one string in the other, or none if there is none |
| `Search.GlobalSubstitute` | lua-5.1/src/lstrlib.c:647-679 | The loop of `gsub` in place is the substitution defined match by match |
| `Search.GsubSubstitutes` | lua-5.1/src/lstrlib.c:647-679 | For every replacement function: the result replaces exactly a list of matches, each the first match at the first position that matches from the end of the one before, or one character on if that was empty; it keeps every other character, counts the matches, has no more than allowed, and stops before that only where nothing matches any more or at the error that comes next |
| `Search.SubstitutesOnce` | lua-5.1/src/lstrlib.c:647-679 | That description has one solution: matches, output and count are determined by it |
| `Search.GsubIdentity` | lua-5.1/src/lstrlib.c:647-679 | Replacing each match by itself gives back the subject, within the count allowed |
| `Search.FoundAfter` | lua-5.1/src/lstrlib.c:364-439 | A match ends inside the subject and not before its start |
| `CodeExpr.ExpressionToNextReg` | lua-5.1/src/lcode.c:385-414 | For every expression of and, or, not, comparisons and arithmetic over locals and loads: behind the code so far, run on the machine from its first instruction with any register contents, the code ends just after its last instruction with the short-circuit value in the next register, the leaves evaluated in source order and only when needed, and the registers in use unchanged; it compiles whenever the code so far with 18 instructions for each operator can be jumped over and the registers in use and its temporaries fit, and fails only when a jump cannot reach or registers run out |
| `CodeExpr.ExpressionToLocal` | lua-5.1/src/lcode.c:467-495 | The same for an assignment to a local variable, which is the only register in use that changes |
| `CodeExpr.Expression` | lua-5.1/src/lparser.c:827-852 | The calls the parser makes for an operator tree leave code that evaluates it, with its exits in two lists, in at most 18 instructions for each operator and as many temporaries as the tree says |
| `CodeExpr.CodeArith` | lua-5.1/src/lcode.c:656-667 | Two operands and one arithmetic instruction evaluate both in order |
| `CodeExpr.CodeComp` | lua-5.1/src/lcode.c:670-683 | A comparison and its jump, with the operands of > and >= exchanged, evaluate to its truth |
| `CodeExpr.CodeJoin` | lua-5.1/src/lcode.c:729-746 | `and` and `or` join the exits of both operands |
| `CodeExpr.JoinExits` | lua-5.1/src/lcode.c:729-746 | The exits of both operands become one list, and the jumps of neither go astray |
| `CodeExpr.CodedComputes` | lua-5.1/src/lcode.c:385-406 | What the generator's invariant says of code in a register is what the machine does |
| `CodeExpr.VmExec` | lua-5.1/src/lvm.c:402-414 | The structured run used in the proofs is a run of the machine, instruction by instruction |
| `CodeGen.DischargeVars` | lua-5.1/src/lcode.c:299-329 | A variable is loaded; the evaluation described is the same |
| `CodeGen.Discharge2Reg` | lua-5.1/src/lcode.c:338-374 | The value ends in the register asked for |
| `CodeGen.Discharge2AnyReg` | lua-5.1/src/lcode.c:377-382 | The value ends in a register |
| `CodeGen.Exp2Reg` | lua-5.1/src/lcode.c:385-406 | Whichever exit is taken, the value ends in the register; the two loads are emitted only when some exit carries no value |
| `CodeGen.PatchExits` | lua-5.1/src/lcode.c:392-405 | The exits for true and for false reach their loads, or carry their values |
| `CodeGen.PatchBoth` | lua-5.1/src/lcode.c:399-401 | Both lists are patched, one behind the other |
| `CodeGen.Exp2NextReg` | lua-5.1/src/lcode.c:409-414 | The value ends in the next free register |
| `CodeGen.Exp2AnyReg` | lua-5.1/src/lcode.c:417-428 | The value ends in some register, without code if it is in one already |
| `CodeGen.Exp2Val` | lua-5.1/src/lcode.c:431-436 | No exits are left pending |
| `CodeGen.Exp2RK` | lua-5.1/src/lcode.c:439-464 | An operand that is not a constant ends in a register |
| `CodeGen.StoreLocal` | lua-5.1/src/lcode.c:467-476 | The value ends in the variable's register |
| `CodeGen.InvertJump` | lua-5.1/src/lcode.c:511-516 | A comparison is made to test the opposite |
| `CodeGen.JumpOnCond` | lua-5.1/src/lcode.c:519-531 | The jump leaves for one truth value, and carries the value where it may |
| `CodeGen.GoIf` | lua-5.1/src/lcode.c:534-586 | Control goes on for one truth value and leaves, with the exits so far, for the other |
| `CodeGen.CodeNot` | lua-5.1/src/lcode.c:589-621 | The lists are exchanged and the carried values removed, and the code evaluates the negation |
| `CodeState.FuncState.FixJump` | lua-5.1/src/lcode.c:75-82 | The jump goes to its target; an error leaves the code alone and means that it has outgrown the offset |
| `CodeState.FuncState.PatchTestReg` | lua-5.1/src/lcode.c:126-136 | A test that carries a value is made to copy it to the register or to copy nothing; nothing else changes |
| `CodeState.FuncState.PatchListAux` | lua-5.1/src/lcode.c:145-155 | Every jump of the list gets its target, the value-carrying ones one and the others the other; no other instruction changes but their own tests |
| `CodeState.FuncState.DischargeJpc` | lua-5.1/src/lcode.c:158-161 | The pending jumps go to the next instruction |
| `CodeState.FuncState.Code` | lua-5.1/src/lcode.c:783-795 | The instruction is emitted behind all pending jumps |
| `CodeState.FuncState.Concat` | lua-5.1/src/lcode.c:180-191 | The second list is appended to the first |
| `CodeState.FuncState.Jump` | lua-5.1/src/lcode.c:54-61 | A jump is emitted and the jumps pending to its place join its list |
| `CodeState.FuncState.CondJump` | lua-5.1/src/lcode.c:69-72 | A test and its jump are emitted |
| `CodeState.FuncState.PatchToHere` | lua-5.1/src/lcode.c:174-177 | The list joins the pending jumps |
| `CodeState.FuncState.NeedValue` | lua-5.1/src/lcode.c:117-123 | Whether some jump of the list carries no value |
| `CodeState.FuncState.RemoveValues` | lua-5.1/src/lcode.c:139-142 | All tests of the list copy nothing afterwards |
| `CodeState.FuncState.CheckStack` | lua-5.1/src/lcode.c:194-201 | The stack size covers the registers, or there are too many |
| `CodeState.FuncState.ReserveRegs` | lua-5.1/src/lcode.c:204-207 | So many registers more are in use |
| `CodeState.FuncState.FreeReg` | lua-5.1/src/lcode.c:210-215 | The last temporary is free again |
| `JumpLists.ThreadedList` | lua-5.1/src/lcode.c:180-191 | Linking the last jump of one list to the head of the other gives the list of both, acyclic as they were |
| `JumpLists.PatchStep` | lua-5.1/src/lcode.c:145-155 | Patching one more jump changes that jump and its own test only |
| `CodeMeaning.EmitMeans` | lua-5.1/src/lcode.c:783-795 | Emission keeps the meaning of the code before it |
| `CodeMeaning.GuardMeans` | lua-5.1/src/lcode.c:519-531 | A test and a jump behind a part make its truth an exit |
| `CodeMeaning.JumpMeans` | lua-5.1/src/lcode.c:534-541 | A pending comparison becomes an exit, inverted or not |
| `CodeMeaning.HereMeans` | lua-5.1/src/lcode.c:174-177 | Exits patched to the end continue there |
| `CodeMeaning.RelinkMeans` | lua-5.1/src/lcode.c:145-155 | Relinking jumps that have left a part does not change what the part does |
| `CodeJoins.NotMeans` | lua-5.1/src/lcode.c:589-621 | Exchanging the exits evaluates the negation |
| `CodeJoins.JoinMeans` | lua-5.1/src/lcode.c:729-746 | Two parts behind each other evaluate the conjunction or disjunction, the second only when needed |
| `CodeJoins.PairMeans` | lua-5.1/src/lcode.c:656-683 | Two operands and an operation on their registers evaluate the operation |
| `CodeJoins.SettleMeans` | lua-5.1/src/lcode.c:338-374 | One instruction brings the value into its register |
| `CodeJoins.DeliverMeans` | lua-5.1/src/lcode.c:385-406 | Whichever way a part is left, the value arrives in the register |
| `CodeRuns.ResumeRun` | lua-5.1/src/lvm.c:504-580 | Code in which exits have been resolved or code has been added runs as the old code does up to its exits |
| `Bytecode.Connectives` | lua-5.1/src/lcode.c:589-621 | `not` turns `and` and `or` into one another, values and events alike; of all values nil and false are the false ones |
| `Bytecode.Relations` | lua-5.1/src/lcode.c:670-683 | `~=` is the negation of `==`, and `>` and `>=` are `<` and `<=` with the operands exchanged |
| `Bytecode.EvalLocals` | lua-5.1/src/lcode.c:299-303 | The value of an expression depends on the active locals only |
| `ScopeSim.CompiledRuns` | lua-5.1/src/lparser.c:183-245 | For every program that compiles and every amount of fuel, the machine, with flat closures, upvalues in registers, OP_CLOSE only where the parser marked a block, and sums that read a local variable on their left in its own register, ends as the lexically scoped program does whose sums read such a variable last: same kind of ending, same result, same global variables |
| `ScopeOrder.RaceExactly` | lua-5.1/src/lcode.c:706-727 | If the right operand computes a number, by sums and calls with one argument, then `x + r` means the same in either order, in every scope and store, exactly when `r` holds no call |
| `ScopeOrder.OrderIrrelevant` | lua-5.1/src/lcode.c:706-727 | Whole programs run alike in both orders, for every amount of fuel, if no sum has a variable of its own function on the left of a call, except variables that only the function declaring them assigns |
| `ScopeOrder.CompiledLeftToRight` | lua-5.1/src/lcode.c:439-464 | The code of such a program runs as the program does from left to right |
| `ScopeOrder.CompiledDiffers` | lua-5.1/src/lcode.c:417-428 | Not every program is such: `local x = 1; local function f(a) x = 10; return 1 end; return x + f(nil)` gives 2 from left to right, and its code returns 11 |
| `ScopeOrder.CallFree` | lua-5.1/src/lcode.c:656-667 | An expression without a call assigns nothing, and has the same value in either order |
| `ScopeOrder.SameStat` | lua-5.1/src/lparser.c:1268-1333 | Each statement of such a program, in any function, ends alike in both orders, and leaves what outer functions keep under those names as it was |
| `ScopeOrder.SameLate` | lua-5.1/src/lcode.c:706-727 | The variable on the left still has its value when the right operand has been evaluated |
| `ScopeSim.SimStat` | lua-5.1/src/lparser.c:1268-1333 | The same for each statement in any function and any loop, from related states to related states, through normal ends, `break`, `return`, errors and running out of fuel |
| `ScopeSim.SimExp` | lua-5.1/src/lvm.c:401-450 | The same for each expression |
| `ScopeSim.ApplySim` | lua-5.1/src/lvm.c:634-648 | A call of a closure does what a call of the function does, and leaves the caller's registers its own |
| `ScopeSim.BlockLeave` | lua-5.1/src/lparser.c:296-306 | Leaving a block with an OP_CLOSE exactly where the parser marked it loses no captured variable |
| `ScopeSim.SimBreak` | lua-5.1/src/lparser.c:972-985 | `break` closes what it must: where it emits no OP_CLOSE no variable it leaves has been captured |
| `ScopeSim.NoStrayBreak` | lua-5.1/src/lparser.c:979-983 | What compiles outside of any loop never breaks out of one |
| `ScopeSteps.CaptureSim` | lua-5.1/src/lvm.c:725-733 | The captures of OP_CLOSURE bind to each upvalue of the closure the cell of the very variable that the parser resolved |
| `ScopeSteps.ClosureSim` | lua-5.1/src/lparser.c:309-324 | A function expression, compiled and run, is the function in its scope |
| `ScopeSteps.VarSim` | lua-5.1/src/lparser.c:248-253 | A resolved name, local, upvalue or global, leads to the cell that lexical scope gives it |
| `ScopeSteps.WriteUpvalSim` | lua-5.1/src/lvm.c:446-451 | A write through an upvalue is seen by every closure and register that shares the cell, and by no other |
| `ScopeSteps.LeaveSim` | lua-5.1/src/lfunc.c:96-112 | Giving up registers keeps store and machine related if they were closed or not captured |
| `ScopeRel.FindUpvalSim` | lua-5.1/src/lfunc.c:53-79 | A captured register has one upvalue object, found again or made |
| `ScopeStatic.CompileStatOk` | lua-5.1/src/lparser.c:1268-1333 | Compiling any statement keeps the chain of functions in order: upvalue descriptors reach active variables under their own names, and captured variables are in marked blocks |
| `ScopeStatic.LeaveLoopOk` | lua-5.1/src/lparser.c:296-306 | The block of a loop is never marked, as `leaveblock` asserts |
| `ScopeLimits.Compiles` | lua-5.1/src/lparser.c:160-205 | A program compiles if every `break` is in a loop of its function and it stays within 60 names, 200 declarations, fewer than 250 declarations and temporaries together, and 200 nested levels, those in progress when the parser is called included |
| `ScopeFits.AcceptedFits` | lua-5.1/src/lparser.c:160-205 | In the code of every accepted program each instruction fits: registers below 250 with their temporaries, at most 200 variables and 60 upvalues in a function, and only registers, upvalues and captures that exist where it stands |
| `ScopeFits.CompileStatFits` | lua-5.1/src/lparser.c:1268-1333 | The same for each statement; the level the parser goes on with is the number of registers that hold variables |
| `ScopeLaws.MoreFuel` | lua-5.1/src/lparser.c:1268-1333 | What a program of the model's language does does not depend on the fuel: a run that ends, ends alike with more |
| `ScopeLaws.WhileUnfolds` | lua-5.1/src/lparser.c:988-1004 | A loop that ends is its condition, its body and the loop again, and a `break` leaves this loop alone |
| `ScopeLaws.Repetitions` | lua-5.1/src/lparser.c:1007-1031 | A repetition runs its body before its condition |
| `ScopeLaws.Conditions` | lua-5.1/src/lparser.c:1127-1159 | Of all values nil alone takes the else branch |
| `ScopeLaws.Assigned` | lua-5.1/src/lparser.c:930-959 | What has been assigned to a name is read there |
| `ScopeLaws.Returns` | lua-5.1/src/lparser.c:1235-1264 | A function that returns its parameter returns its argument |
| `ScopeLaws.Sums` | lua-5.1/src/lcode.c:656-667 | Numbers are added, and nil is not |
| `ScopeLaws.Declares` | lua-5.1/src/lparser.c:1176-1190 | A new variable hides those of its name and no other |
| `ScopeLimits.TemporariesBound` | lua-5.1/src/lcode.c:194-207 | While an expression is parsed no more temporaries are in use than its source tree says, whatever its names are resolved to |
| `Scopes.SingleVarAuxMeans` | lua-5.1/src/lparser.c:224-245 | Following the descriptors outwards through any number of functions from what the look-up returns reaches the innermost active declaration; it is global exactly when there is none; it fails exactly when some function on the way has 60 upvalues and not this one; nothing found earlier changes its place or meaning |
| `Scopes.DenoteStable` | lua-5.1/src/lparser.c:183-204 | An upvalue index keeps its variable when upvalues or functions are added |
| `Scopes.DenoteInjective` | lua-5.1/src/lparser.c:183-204 | Two upvalues of one function are never the same variable |
| `Scopes.MarkUpvalMarks` | lua-5.1/src/lparser.c:217-221 | The captured variable's own block is marked, and no mark is lost |
| `FuncStates.SingleVarAux` | lua-5.1/src/lparser.c:224-245 | The recursion over the linked function records, in place, is the look-up proved right; the assertion of `indexupvalue` on the name holds |
| `FuncStates.FuncState.constructor` | lua-5.1/src/lparser.c:327-352 | A new innermost function without upvalues or blocks |
| `FuncStates.FuncState.SearchVar` | lua-5.1/src/lparser.c:207-214 | The last active variable of the name, or -1 |
| `FuncStates.FuncState.MarkUpval` | lua-5.1/src/lparser.c:217-221 | The walk marks the innermost block begun before the variable, and no other |
| `FuncStates.FuncState.IndexUpvalue` | lua-5.1/src/lparser.c:183-204 | An upvalue is found again, added at the end, or refused at the limit |
| `FuncStates.FuncState.EnterBlock` | lua-5.1/src/lparser.c:285-293 | A new innermost block that begins with the next variable |
| `FuncStates.FuncState.LeaveBlock` | lua-5.1/src/lparser.c:296-306 | The block and its variables are gone; the result says whether to close |
| `FuncStates.FuncState.NewLocal` | lua-5.1/src/lparser.c:160-173 | One more active variable, or none at the limit |
| `FuncStates.FuncState.RemoveVars` | lua-5.1/src/lparser.c:176-180 | The variables from the level on are gone |
| `FuncStates.FuncState.BreakStat` | lua-5.1/src/lparser.c:972-985 | The innermost loop, and whether a block on the way out is marked |
| `ScopeParser.Program` | lua-5.1/src/lparser.c:382-397 | Parsing a program in place gives the code of the compiled program, or fails exactly when that does: for a stray `break` or for want of locals, upvalues, registers or levels |
| `ScopeParser.Statement` | lua-5.1/src/lparser.c:1268-1318 | Each statement, parsed in place, leaves in the linked records what compilation leaves in its chain, and the same code; it fails if compilation does or the nested levels run out |
| `ScopeParser.TwoStatements` | lua-5.1/src/lparser.c:1321-1334 | One statement behind the other |
| `ScopeParser.Chunk` | lua-5.1/src/lparser.c:1321-1334 | One level more, or failure |
| `ScopeParser.SubExpr` | lua-5.1/src/lparser.c:827-852 | An expression any number of levels further down, or failure |
| `ScopeParser.Value` | lua-5.1/src/lcode.c:194-207 | An expression of a statement, which fails if variables and temporaries reach 250 |
| `ScopeParser.Expression` | lua-5.1/src/lparser.c:827-852 | The same for expressions |
| `ScopeParser.Operands` | lua-5.1/src/lparser.c:827-852 | Two expressions, the second in the records the first has left |
| `ScopeParser.Variable` | lua-5.1/src/lparser.c:248-253 | A name is resolved in the records |
| `ScopeParser.Assigned` | lua-5.1/src/lparser.c:248-253 | The same for the target of an assignment |
| `ScopeParser.Body` | lua-5.1/src/lparser.c:575-592 | A nested function is parsed in a new record, whose upvalues become its captures |
| `ScopeParser.BlockStatement` | lua-5.1/src/lparser.c:880-887 | A block is entered, parsed and left, with its OP_CLOSE |
| `ScopeParser.LocalStatement` | lua-5.1/src/lparser.c:1176-1192 | The variable is in scope only behind its value |
| `ScopeParser.LocalFunctionStatement` | lua-5.1/src/lparser.c:1162-1173 | The variable is in scope in its own function |
| `ScopeParser.AssignStatement` | lua-5.1/src/lparser.c:930-959 | The target is resolved before the value is parsed |
| `ScopeParser.IfStatement` | lua-5.1/src/lparser.c:1138-1159 | The condition and both parts |
| `ScopeParser.IfParts` | lua-5.1/src/lparser.c:1138-1159 | Both parts are blocks |
| `ScopeParser.WhileStatement` | lua-5.1/src/lparser.c:988-1004 | The condition and the loop |
| `ScopeParser.LoopBody` | lua-5.1/src/lparser.c:997-1003 | The block of the loop is left without an OP_CLOSE, whatever the body captures |
| `ScopeParser.RepeatStatement` | lua-5.1/src/lparser.c:1007-1030 | The condition is parsed inside of the scope block, whose mark decides about the OP_CLOSE |
| `ScopeParser.RepeatBody` | lua-5.1/src/lparser.c:1012-1015 | The body is parsed in a scope block of its own inside the loop block |
| `ScopeParser.RepeatEnd` | lua-5.1/src/lparser.c:1015-1029 | The condition sees the variables of the body, and both blocks are left behind it |
| `ScopeParser.LeaveRepeat` | lua-5.1/src/lparser.c:1017-1029 | Scope block and loop block are left |
| `Grammar.ReadsDerived` | lua-5.1/src/lparser.c:827-852 | The parser reads a text as a tree exactly when the grammar with one level for each rank of operators derives it with that tree; the grammar knows no priorities |
| `Grammar.TwoOperators` | lua-5.1/src/lparser.c:812-818 | `x op1 y op2 z` is read to the left exactly if op1 ranks higher, or as high and neither `..` nor `^`, for all operators and operands |
| `Grammar.UnaryBefore` | lua-5.1/src/lparser.c:820 | `u x op y` is `(u x) op y` for every unary and binary operator but `^`, and `u (x ^ y)` for that |
| `Grammar.UnaryBehind` | lua-5.1/src/lparser.c:827-852 | `x op u y` is `x op (u y)` for every operator |
| `Precedence.PrintedReadsBack` | lua-5.1/src/lparser.c:809-852 | Every operator tree, printed with the parentheses that the priorities require, is read back as itself up to the first token that cannot continue it, if and only if the levels suffice; what the priorities mean is the subject of Grammar.ReadsDerived |
| `Precedence.ReadsWritten` | lua-5.1/src/lparser.c:827-852 | However a tree is written down, with any further parentheses, the parser reads that tree and stops at the first operator its limit excludes |
| `Precedence.AcceptsWritten` | lua-5.1/src/lparser.c:827-852 | Conversely, whatever the parser accepts is a tree written down, consumed to the token |
| `Precedence.Unambiguous` | lua-5.1/src/lparser.c:809-852 | No token sequence writes down two trees |
| `Precedence.PrintWrites` | lua-5.1/src/lparser.c:809-818 | Printing with the needed parentheses writes the tree down |
| `Precedence.RoomSuffices` | lua-5.1/src/lparser.c:276-279 | The nesting limit is never hit with more levels than tokens |
| `Precedence.LexState.SubExpr` | lua-5.1/src/lparser.c:827-852 | The loop and recursion in place read what the specification reads, return the first untreated operator, and restore the nesting count |
| `Precedence.LexState.SimpleExp` | lua-5.1/src/lparser.c:666-687 | An operand, or an expression in parentheses |
| `Precedence.LexState.Expr` | lua-5.1/src/lparser.c:855-857 | A whole expression |
| `Precedence.LexState.constructor` | lua-5.1/src/lparser.c:382-390 | The parser at the first token |
| `Precedence.ParsePrinted` | lua-5.1/src/lparser.c:855-857 | Parsing a printed tree returns it and consumes all its tokens, or fails for its depth alone |
| `LuaTable.Table.Put` | lua-5.1/src/ltable.c:494-505 | Assignment is map update: the key has the value, every other key what it had; it fails for nil and NaN keys, which change nothing, and otherwise only with 2^26 keys or more |
| `LuaTable.Table.Get` | lua-5.1/src/ltable.c:469-491 | The value of the key in the map, nil if it has none |
| `LuaTable.Table.Find` | lua-5.1/src/ltable.c:435-466 | The slot of the key if it has one; none means it has none anywhere |
| `LuaTable.Table.FindInChain` | lua-5.1/src/ltable.c:440-450 | The node of the chain that holds the key, or none on the chain |
| `LuaTable.Table.Set` | lua-5.1/src/ltable.c:494-505 | A slot for the key, with the map unchanged; with room for it never a rehash |
| `LuaTable.Table.NewKey` | lua-5.1/src/ltable.c:399-429 | A new key gets a slot by Brent's variation, in its main position or a free node, and the map is unchanged; with room it never fails |
| `LuaTable.Table.GetFreePos` | lua-5.1/src/ltable.c:382-389 | The last free node, and no free node is passed over |
| `LuaTable.Table.Predecessor` | lua-5.1/src/ltable.c:411-413 | The walk finds the node before the colliding one |
| `LuaTable.Table.MakeRoom` | lua-5.1/src/ltable.c:410-418 | A key out of its main position moves to the free node and its chain with it |
| `LuaTable.Table.ChainFree` | lua-5.1/src/ltable.c:419-424 | The new key is chained behind the key in its main position |
| `LuaTable.Table.Assign` | lua-5.1/src/ltable.c:494-505 | Writing a value to a slot updates its key only |
| `LuaTable.Table.SetNodeVector` | lua-5.1/src/ltable.c:272-294 | Free nodes, the least power of two that suffices, or the dummy node |
| `LuaTable.Table.Reinsert` | lua-5.1/src/ltable.c:309-322 | Each key that is put back finds room |
| `LuaTable.Table.Resize` | lua-5.1/src/ltable.c:297-324 | New sizes keep the map; no re-insertion triggers another rehash |
| `LuaTable.Table.Rehash` | lua-5.1/src/ltable.c:333-350 | Afterwards the array part is the largest power of two more than half of whose slots the keys and the extra one use, the hash part the least power of two for the others, there is room for the extra key, and the map is the same; it fails only with 2^26 keys or more |
| `LuaTable.Table.constructor` | lua-5.1/src/ltable.c:358-371 | An empty table on the dummy node |
| `LuaTable.Table.New` | lua-5.1/src/ltable.c:358-371 | An empty table with parts of the sizes asked for |
| `LuaTable.Table.FindIndex` | lua-5.1/src/ltable.c:137-159 | The position of a key in a traversal, or an error exactly when it is at none |
| `LuaTable.Table.Next` | lua-5.1/src/ltable.c:162-179 | The first entry with a value behind the given key |
| `LuaTable.Table.Traverse` | lua-5.1/src/ltable.c:162-179 | From nil on, every key with a value is visited exactly once, with its value |
| `LuaTable.Table.UnboundSearch` | lua-5.1/src/ltable.c:532-553 | A boundary above the given index |
| `LuaTable.Table.LinearSearch` | lua-5.1/src/ltable.c:543-547 | A boundary by counting up |
| `LuaTable.Table.GetN` | lua-5.1/src/ltable.c:560-575 | An index whose value is not nil (or 0) and whose successor's is |
| `LuaTable.CountKeys` | lua-5.1/src/ltable.c:333-344 | All keys and the extra one are counted, and by slices those that could be in an array part |
| `LuaTable.NewSizes` | lua-5.1/src/ltable.c:333-348 | The sizes chosen hold all keys and the extra one, with the best array size |
| `LuaTable.DemandSize` | lua-5.1/src/ltable.c:343-348 | The nodes demanded are the keys not in the array part, the extra one included |
| `LuaTable.RoomAfter` | lua-5.1/src/ltable.c:399-407 | After the growth the extra key has an array slot or there is a free node |
| `LuaTable.RoomToRefill` | lua-5.1/src/ltable.c:309-322 | While keys are put back each one left has room |
| `LuaTable.EntriesContent` | lua-5.1/src/ltable.c:162-179 | The entries in traversal order are the map, each key once |
| `TableSizes.ComputeSizes` | lua-5.1/src/ltable.c:189-208 | The largest power of two, or 0, more than half of whose slots would be used, and the exact number of keys that go there |
| `TableSizes.CountInt` | lua-5.1/src/ltable.c:211-219 | A key that could be in an array part is counted in its slice, and no index leaves the array of counters |
| `TableSizes.NumUseArray` | lua-5.1/src/ltable.c:222-244 | Each counter is the number of array keys in its slice |
| `TableSizes.NumUseHash` | lua-5.1/src/ltable.c:247-260 | The same with the keys of the nodes, and their number |
| `HashPart.PlacedBehind` | lua-5.1/src/ltable.c:419-424 | Chaining behind a key in place keeps the hash part in order: chains acyclic, one predecessor at most, every key on the chain of its main position |
| `HashPart.PlacedInstead` | lua-5.1/src/ltable.c:410-418 | So does moving a key out of a foreign main position |
| `HashPart.Overwritten` | lua-5.1/src/ltable.c:425-428 | So does reusing a node without a value |
| `HashPart.ValueChanged` | lua-5.1/src/ltable.c:494-505 | So does changing a value |
| `TableContent.NodeAssigned` | lua-5.1/src/ltable.c:494-505 | Assigning in a node is updating the map at its key |
| `TableContent.ArrayAssigned` | lua-5.1/src/ltable.c:508-517 | Assigning in the array part is updating the map at the index |
| `TableContent.OverwrittenSame` | lua-5.1/src/ltable.c:425-428 | Giving a valueless node another key keeps the map |
| `TableContent.BehindSame` | lua-5.1/src/ltable.c:419-424 | Chaining a new key keeps the map |
| `TableContent.MovedSame` | lua-5.1/src/ltable.c:410-418 | Moving a node keeps the map |
| `BytecodeCheck.SoundExactly` | lua-5.1/src/ldebug.c:317-457 | For accepted code: whatever the operands decide, the machine goes from each instruction that the checker looked at to another one it looked at, or ends, if and only if behind the count of each extended SETLIST looked at there is an instruction, and no OP_LOADBOOL looked at skips onto such a count |
| `BytecodeCheck.CheckedRunStays` | lua-5.1/src/ldebug.c:317-457 | A run over accepted code of that kind never leaves the code array and never executes a count |
| `BytecodeCheck.StepStays` | lua-5.1/src/lvm.c:385-737 | The half of this for one instruction: harmless, it leads to an instruction that was looked at |
| `BytecodeCheck.StepAstray` | lua-5.1/src/lvm.c:385-737 | The other half: not harmless, it leads out of the code or to a count, whatever the operands decide |
| `BytecodeCheck.ClosureStays` | lua-5.1/src/ldebug.c:435-445 | Behind the captures of OP_CLOSURE there is another instruction, although only their own places are checked |
| `BytecodeCheck.CheckedTouches` | lua-5.1/src/ldebug.c:280-457 | Every instruction that was looked at touches registers below the stack size, those that calls, returns, lists and loops span included, and constants below their number; upvalues, nested functions and captures exist, and global names are strings |
| `BytecodeCheck.NoExtendedHarmless` | lua-5.1/src/ldebug.c:429-433 | Code without an extended SETLIST is of the kind that is never left, and all of it is looked at |
| `BytecodeCheck.ExtendedEscapes` | lua-5.1/src/ldebug.c:429-433 | Not all accepted code is: one that is left |
| `BytecodeCheck.CountExecuted` | lua-5.1/src/ldebug.c:429-433 | And one whose run executes the count, which is no instruction |
| `BytecodeCheck.SymbExec` | lua-5.1/src/ldebug.c:317-457 | The loop in place: a full check succeeds exactly when every instruction passes; what a search returns is the last instruction it came to that changes the register, or the final return if none does |
| `BytecodeCheck.Captures` | lua-5.1/src/ldebug.c:440-444 | The inner loop finds a capture that is neither MOVE nor GETUPVAL, if there is one |
| `BytecodeCheck.CheckOne` | lua-5.1/src/ldebug.c:322-453 | The checks of one turn |
| `BytecodeAccept.AcceptsCode` | lua-5.1/src/ldebug.c:317-461 | Code is accepted if and only if it passes the first check and every instruction that is looked at is good |
| `BytecodeAccept.AcceptsExactly` | lua-5.1/src/ldebug.c:322-453 | An instruction passes if and only if it is good: a valid opcode whose registers, constants, upvalue, nested function and captures exist, whose unused operands are zero, whose jump goes to an instruction that is looked at, with a jump and one more instruction behind a test, two operands at least of a concatenation, and an instruction that takes an open list behind one that leaves it |
| `BytecodeAccept.CountDecides` | lua-5.1/src/ldebug.c:337-347 | Whether a good jump behind a count is accepted depends on that count: it is refused when the count reads as an extended SETLIST |
| `BytecodeAccept.ReportsWritten` | lua-5.1/src/ldebug.c:351-426 | The search reports the registers an instruction may write, with exactly the exceptions named: the visible loop index, varargs above the first, the odd end of an inverted LOADNIL |
| `HeapAlloc.Heap.Malloc` | src/libc/stdlib.c:56-96 | Returns NULL only for a zero size or when no free block is large enough; otherwise a block of exactly the units needed, the tail of the first free block going round from the last place that is large enough, with every other block as it was and all units of the arena accounted for |
| `HeapAlloc.Heap.Free` | src/libc/stdlib.c:100-129 | The block becomes free, joined with the free blocks it touches; every allocated block keeps its place and size |
| `HeapAlloc.Heap.Initialize` | src/libc/stdlib.c:64-70 | The first call makes the arena one free block |
| `HeapAlloc.Heap.FirstFit` | src/libc/stdlib.c:72-95 | The walk ends after one round, with the first block large enough, all before it too small, or the certainty that there is none |
| `HeapAlloc.Heap.Take` | src/libc/stdlib.c:74-88 | The whole block, or its tail, is allocated; list and sizes change there alone, and the next walk begins before it |
| `HeapAlloc.Heap.FindPlace` | src/libc/stdlib.c:108-111 | The walk ends at the free block after which the address belongs, wrap included |
| `HeapAlloc.Heap.JoinUpper` | src/libc/stdlib.c:113-118 | Joined with the block behind it exactly if that one is free |
| `HeapAlloc.Heap.JoinLower` | src/libc/stdlib.c:120-128 | Joined with the block before it exactly if that one is free |
| `HeapAlloc.Heap.constructor` | src/libc/stdlib.c:53-54 | No block before the first call |
| `HeapList.Unlinked` | src/libc/stdlib.c:76-78 | Taking a whole block keeps the list circular, address-ordered with one wrap, without touching blocks, and the arena accounted for |
| `HeapList.TailUsed` | src/libc/stdlib.c:79-84 | So does splitting off the tail of a block |
| `HeapList.Inserted` | src/libc/stdlib.c:117-125 | So does inserting a block that touches no free one |
| `HeapList.JoinedUpper` | src/libc/stdlib.c:113-116 | So does joining with the block behind, which leaves the list |
| `HeapList.JoinedLower` | src/libc/stdlib.c:120-123 | So does joining with the block before |

## Left out

- Weak tables and ephemerons, userdata finalizers (`__gc`), the pacing arithmetic of `luaC_step`, stack shrinking, and the memory accounting that triggers a step: a run may take a step at any time.
- Hash functions are parameters: `hash` of strings in the collector, the main position of keys in the tables. How they are computed is not modelled.
- Links between objects: the collector's lists are sequences of addresses; the nodes of a table are linked by index and the blocks of the heap by address, as in the source.
- Dead keys that the collector leaves in tables, `luaH_resizearray` making the array part smaller, and array parts of more than 2^26 slots.
- CodeExpr.ExpressionToNextReg: operands that are constants (numbers, strings, true, false, nil), indexed variables, calls, varargs, concatenation, unary minus and length are not covered, nor the merging of LOADNIL; loads, comparisons and arithmetic may run a metamethod, which here leaves events behind but does not assign captured local variables.
- CodeExpr.ExpressionToLocal: the same restrictions.
- CodeExpr.Expression: the same restrictions.
- CodeExpr.CodeArith: constant operands and constant folding are not covered, nor metamethods that assign captured local variables.
- CodeExpr.CodeComp: constant operands are not covered, nor metamethods that assign captured local variables.
- CodeGen.DischargeVars: indexed variables, calls and varargs are not covered.
- CodeGen.Discharge2Reg: constants are not covered.
- CodeGen.Exp2RK: constant operands are not covered.
- CodeGen.StoreLocal: of the cases of `luaK_storevar` only the local variable is covered.
- CodeGen.GoIf: the cases of constants are not covered.
- CodeGen.CodeNot: the cases of constants are not covered.
- ScopeSim.CompiledRuns: functions have one parameter and return one value; multiple assignment, numeric and generic `for`, tables, methods, varargs and coroutines are not modelled; a sum of anything but numbers fails, so no metamethod runs that might assign captured local variables; a tail call runs as a call; numbers are unbounded integers; the stack and the depth of calls have no limit but the fuel; only active local variables are registers, and temporaries are counted but hold their values outside the stack; upvalue objects are found by a search of all objects, the ordered list being the subject of GcClosures.FindUpvalShares.
- ScopeOrder.RaceExactly: exact for right operands made of numbers, sums and calls by name; for whole programs, where the question is undecidable, `OrderIrrelevant` gives a sufficient condition.
- ScopeLimits.Compiles: the condition is sufficient, not necessary: it counts every name as an upvalue of every function. What the code also refuses and the model does not: a jump over more than 131071 instructions, more than 262143 constants or nested functions in one function. Constants are taken to fit in an operand, which holds for the first 256 of a function.
- ScopeParser.Program: the input is a tree instead of tokens, so syntax errors are absent; the nested levels are handed down as a number, which `Precedence.LexState.SubExpr` counts in place; registers are counted for each expression of a statement at its end.
- Precedence.LexState.SimpleExp: operands are single tokens; calls, fields and constructors are not read.
- Precedence.PrintedReadsBack: operands other than expressions in parentheses are single tokens with their suffixes; a parenthesis directly behind an operand, which would be a call, is not modelled.
- Search.GlobalSubstitute: the replacement is a function of the match; how strings, tables and functions give it is not modelled.
- HeapAlloc.Heap.Malloc: addresses are in units of one header; request sizes that overflow are not modelled, and the root block is taken to lie below the arena and not to touch it; `BLOCK_PTR` and `PTR_BLOCK` as written (src/libc/stdlib.c:47-48) are not inverse to each other, and are taken as the pair they are meant to be.
- HeapAlloc.Heap.Free: the argument is NULL or a block in use, and freeing anything else is not modelled; `PTR_BLOCK` is taken as the inverse of `BLOCK_PTR`, which as written it is not.
- `realloc` and `calloc`, which move contents.
- BytecodeCheck.CheckedRunStays: accepted code that is left, or whose run executes a count, exists, as BytecodeCheck.ExtendedEscapes and CountExecuted show; BytecodeCheck.SoundExactly says which code that is.
- BytecodeCheck.CheckedTouches: where the number of operands is open, the registers up to the top of the stack are not covered, nor those above its results that a generic loop uses while it calls; nor is hook-driven execution.
- BytecodeAccept.AcceptsCode: `checkArgMode` looks at B of OP_TEST, which the machine does not use; it counts as a register here. Parameters and the vararg flags that only assertions look at are not modelled.
- PatternText.MeansItsParts: patterns that are written from parts, in which a range does not end with a percent sign: there `classend` and the scan of the set disagree on the end of the set. Which of several matches is found is the subject of PatternSpec.FirstMatchIsPreferred.
- `table.sort`, dumping and loading of chunks, and JSON.
- Number formatting and parsing, floating-point arithmetic and constant folding; numbers are opaque where they appear.
- Allocation failure, error recovery by `longjmp`, debug hooks, the C API and the standard library glue, drivers, interrupts and the shell.

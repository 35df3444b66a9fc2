# A Dafny model of the Dux compiler and runtime

Dux is a compiler with a C runtime. This project models its hardest parts and proves what they promise.
`dafny verify dfyconfig.toml` checks the whole project.

Each part has the form its source has. Code that changes things step by step is a class or a method whose
contract ties its new state to a function of the old one; the results are lemmas about that function, for all
programs, runs or inputs.

## The parts

**Lowering of scalar statements** (`ScalarSource`, `Ir`, `Lower`, `Codegen`; proofs in `LowerFrame`,
`LowerAgree`, `LowerSimExpr`, `LowerSim`, `LowerMain`, `LowerBlocks`, `LowerSafe`, `LowerRange`, `ScalarCheck`;
`ScalarLaws` and `LowerLaws` say what the arithmetic, scopes, cases and labels are that both sides share).
`ScalarSource` gives structured statements over wrap-around 32-bit integers a meaning of their own, with fuel for
loops. `Lower` says which blocks are emitted; the class in `Codegen` emits the same by updating its blocks,
insertion point, loop stack and scopes. `Ir` runs blocks. Results: the blocks return and print exactly what the
source does and run forever exactly when it does; every block has one terminator, at its end; the only branch
to nowhere comes from a `continue` directly in a `switch`; and the one condition that the semantic checker does not
grant, on the bounds of range loops, is exact. The blocks of `return x op y` and of a counting loop stop with the
numbers that integer arithmetic gives, cut to 32 bits.

**Cleanup and reference counts** (`Cleanup`, `CleanupCodegen`, `CleanupRun`; proofs in `CleanupProof`,
`CleanupTrace`, `CleanupEmit`, `CleanupSim`, `CleanupStatic`, `CleanupMain`; `CleanupMeaning` is a meaning of the
source by itself, `CleanupAgree` and `CleanupLaws` connect it to the code). A small language of list and object variables, defers, blocks, loops and returns, the
cleanup code that is emitted for it, and a machine with slots, a heap and reference counts. An oracle gives one
value to each step, so a run can be cut off after any instruction; a call hands over null, a new list or one that is
alive already. The trace records when a variable comes to hold something and when a cleanup takes effect, which for
a release or destructor is when its null guard lets it through. Results: a run returns exactly the reference that
names and scopes give without slots and counts; at every moment each list's count is the
number of slots holding it plus the returned value; after a return only the returned list is left. Cleanups take
effect in reverse order of registration in every run; releases and destructors only ever for what is held. A
deferred body runs once more for each `break` or `continue` taken with it registered around the loop, because such a
jump unwinds every scope and the outer ones are unwound again later; whether that can happen is decided on the
program.

**Channels and the thread pool** (`Channel`, `ChannelRing`, `ChannelList`, `ChannelSame`, `Pool`, `PoolQueue`).
Transition systems over any number of threads. A thread holds the mutex from lock to unlock or wait, so one pass
through that code is one step. Threads are on the way to the mutex, asleep, signalled, or woken for no reason; a
signal picks any one sleeper. The ring and the linked list are classes proved against the same pure functions
that the transition system uses.

**Dictionary** (`DictTable`, `Dict`). Open addressing with tombstones and cached FNV-1a hashes in an array, proved
to behave as a mathematical map. The tombstone counter is never lowered when a tombstone is reused; it bounds the
used slots from above, and that is what leaves an empty slot for every probe to stop at. The capacity is
16 times a power of two, so masking with `cap - 1` is written as the remainder.

**Generics** (`Generics`, `GenericsNames`, `GenericsExpand`, `GenericsMain`, `GenericsDecls`, `GenericsTurns`,
`GenericsLimits`, `GenericsBodies`, `GenericsShape`, `GenericsUses`). Mangling, substitution, bottom-up resolution
and the worklist, and what the returned program consists of, by position: every body with its shape kept and its
types reduced, every instantiation the template with `params[i]` read as `args[i]`. A syntax node is walked, skipped
(cloned but not resolved: field initialisers and constructor initialisers) or opaque (`match` and `await`, which are
cloned to nothing).

**Second-stage parser** (`Stage2`, `Stage2Proof`, `Stage2Back`, `Stage2Ranks`, `Stage2Parser`). The expression parser
on tokens as total functions, the printed form it returns, the tree that any printed tree comes back as, precedence
and association of expressions with any parentheses, and the parser object that builds the printed form as it goes.

**WebSocket and SHA-1** (`WsFrame`, `WsMessage`, `WsWire`, `WsConn`, `Sha1`, `Sha1Laws`, `Sha1Stream`). Frames of
sections 5.2 to 5.5 of RFC 6455 over a byte stream that arrives in pieces of any size, byte by byte and with the
examples of its section 5.7; SHA-1 of sections 4 and 6.1 of RFC 3174, with its constants and functions bit by bit and
its first example.

**Strings and lists** (`Str`, `StrBuf`, `List`). Splitting and replacing, the growing buffer with its amortised
cost, and the list with its boxed and its 32-bit representation. `RuntimeLaws` names the answers of the hash, list
indices, channel passes and pool passes outright.

## Where the code differs from what one would expect

- A `continue` directly in a `switch` branches to a block that does not exist (`LowerBlocks.BlocksAreWellFormed`
  says exactly when).
- `x = x` for a list releases the old value before it retains the new one (`CleanupMain.SelfAssignmentFails`).
- A `break` or `continue` runs the cleanups of every active scope, also those outside its loop. A deferred body then
  runs twice (`CleanupMain.BreakRunsDeferTwice`); a list variable around the loop is emptied, and if it is assigned
  again after the loop it is released again (`CleanupMain.RefilledIsReleasedTwice`).
- A range loop up to and including the greatest integer never ends (`LowerLaws.RangeIsPrinted`).
- In `for int i in 0..<i` the semantic checker takes the bound for an outer `i` (src/sema/sema.cpp:538-553), the
  emitter for the loop variable, which has no value yet. What the generated code loads there is undefined; the
  machine of this model reads 0 (`LowerRange.OwnBoundIsLost`).
- A task submitted after the last pool worker has exited is never run (`Pool.SubmitAfterExitIsLost`, reached by
  `Pool.SubmitAfterExitHappens`).
- Generic templates in a namespace inside a namespace survive expansion (`GenericsMain.TemplatesRemainOnlyDeep`);
  two instantiations with one mangled name can leave a used one undeclared (`GenericsLimits.UsedButNotDeclared`);
  a class that already has the name of an instantiation is declared next to it (`GenericsLimits.DeclaredTwice`).
- Without any template in the program, type arguments are not resolved at all (`GenericsLimits.ArgumentsStay`;
  `GenericsMain.NoTypeArgumentsRemain` says exactly when some are left).
- The second-stage printer drops parentheses around prefix forms and assignments
  (`Stage2Back.PrefixBaseIsLost`, `Stage2Back.AssignmentOperandIsLost`; `Stage2Back.ComesBackIffGood` says exactly
  when that changes the tree).

## Model

| member | source | states |
|---|---|---|
| LowerMain.LoweringIsCorrect | src/codegen/codegen.cpp:1083-1531 | for every function body over integers of one width and all arguments: the emitted blocks stop with a value and an output exactly when the source function ends with them; and get stuck exactly when the source runs a continue directly in a switch |
| LowerMain.DivergenceIsPreserved | src/codegen/codegen.cpp:1192-1472 | the emitted blocks never stop exactly when the source function never ends |
| LowerBlocks.BlocksAreWellFormed | src/codegen/codegen.cpp:1083-1531 | after lowering any body every block has exactly one terminator, at its end, and every branch goes to a block of the function; a branch to nowhere exists exactly when a continue that code is generated for has a switch as its target |
| LowerSafe.NeverStuck | src/codegen/codegen.cpp:1129-1146 | a function without such a branch never gets stuck, whatever its arguments and however long it runs |
| ScalarLaws.LowBits | src/codegen/codegen.cpp:2628-2630 | for all integers: the results of +, - and * lie in the 32-bit range and differ from a + b, a - b and a * b by a multiple of 2^32; so does a literal from its value |
| ScalarLaws.DivisionTruncates | src/codegen/codegen.cpp:2631-2632 | for operands in range, a nonzero divisor and no overflow: a is quotient times b plus remainder, the remainder smaller than b and zero or of a's sign |
| ScalarLaws.LevelIsInnermost | src/codegen/codegen.cpp:4128-4134 | a name is looked up in the innermost scope that binds it, and is unknown exactly when none does |
| ScalarLaws.WriteChangesOne | src/codegen/codegen.cpp:2397-2437 | an assignment changes the variable of the innermost scope that binds the name, and no other |
| ScalarLaws.SwitchStartsAt | src/codegen/codegen.cpp:1492-1513 | a switch starts at the first case with the value, without one at the last default wherever it stands, without either behind the last case |
| ScalarLaws.LabelIsInnermost | src/codegen/codegen.cpp:1111-1146 | a label means the innermost context with that label; a jump without one means the innermost context |
| LowerLaws.SumIsReturned | src/codegen/codegen.cpp:2628 | the blocks of `return x + y` stop with the 32-bit integer that differs from a + b by a multiple of 2^32 |
| LowerLaws.DifferenceIsReturned | src/codegen/codegen.cpp:2629 | the same for `return x - y` |
| LowerLaws.ProductIsReturned | src/codegen/codegen.cpp:2630 | the same for `return x * y` |
| LowerLaws.QuotientIsReturned | src/codegen/codegen.cpp:2631-2632 | the blocks of `return x / y` and `return x % y` stop with quotient and remainder of one truncating division |
| LowerLaws.ComparisonIsPrinted | src/codegen/codegen.cpp:2643-2648 | a printed comparison is 1 exactly when the relation it names holds, for all six |
| LowerLaws.NegativeIsReturned | src/codegen/codegen.cpp:2676-2690 | `return -x` stops with the 32-bit integer that differs from -a by a multiple of 2^32 |
| LowerLaws.CompoundIsPrinted | src/codegen/codegen.cpp:2437-2468 | x += y, x -= y and x *= y have the sum, difference and product as value, and x has it afterwards |
| LowerLaws.StepIsPrinted | src/codegen/codegen.cpp:2660-2675 | x++ and x-- have the old value of x as value, ++x and --x the new one; x is one more or less afterwards |
| LowerLaws.LogicIsPrinted | src/codegen/codegen.cpp:2472-2497 | &&, \|\| and ! are 1 exactly when they hold, and an assignment on the right is made only when the left side does not decide |
| LowerLaws.BranchIsTaken | src/codegen/codegen.cpp:1168-1190 | the first branch is taken exactly when the condition is not zero |
| LowerLaws.RangeIsPrinted | src/codegen/codegen.cpp:1239-1430 | for all bounds: the blocks of a range loop that prints its variable print the integers of the range in order and stop; up to and including the greatest integer they never stop |
| LowerLaws.LabelledBreakLeavesBoth | src/codegen/codegen.cpp:1111-1128 | a break with a label in an inner loop leaves the loop of that label |
| LowerRange.BoundIsTheOuterOne | src/codegen/codegen.cpp:1250-1268 | one bound by itself: its code is the code for the outer variable if and only if it does not mention the name |
| LowerRange.RangeIsTheOuterOne | src/codegen/codegen.cpp:1250-1292 | the loop variable is put into scope before the bounds: where an outer variable has its name, the code up to the header of the loop is the code for the outer variable if and only if neither bound mentions the name |
| LowerRange.OwnBoundIsLost | src/codegen/codegen.cpp:1250-1268 | the failing input: `for int i in 0..<i { print(i); }` on 1 prints 0 in the source, while the emitted code compares with an unset slot and, reading it as 0, prints nothing |
| LowerSim.SimStmts | src/codegen/codegen.cpp:1083-1095 | running the code of a statement list gives the final variables, output and exit (fall through, loop broken or continued, returned value) that the source gives; an exhausted budget means the machine has run at least that long |
| LowerSim.SimIf | src/codegen/codegen.cpp:1168-1190 | the same for if, whose branches meet in one block |
| LowerSim.SimLoop | src/codegen/codegen.cpp:1192-1214 | the same for tested loops, over any number of rounds, with continue going to the increment block where there is one |
| LowerSim.SimDo | src/codegen/codegen.cpp:1216-1237 | the same for do-while |
| LowerSim.SimForRange | src/codegen/codegen.cpp:1239-1300 | the same for range loops: the bounds are evaluated once, with the variable already in scope |
| LowerSim.SimForC | src/codegen/codegen.cpp:1432-1472 | the same for C-style for loops |
| LowerSim.SimCases | src/codegen/codegen.cpp:1515-1527 | the same for case bodies from any entry on, falling through to the next body or the exit |
| LowerSim.SwitchSelects | src/codegen/codegen.cpp:1492-1513 | the switch instruction jumps to the first case with the value, else the last default, wherever it stands, else the exit |
| LowerSimExpr.SimExpr | src/codegen/codegen.cpp:2265-2313 | running the code of an expression computes its value and its effect on the variables |
| LowerSimExpr.SimLogic | src/codegen/codegen.cpp:2472-2497 | the blocks and the phi of && and \|\| evaluate the right operand only when the left one does not decide |
| LowerFrame.GrowsStmts | src/codegen/codegen.cpp:1083-1166 | generating statements only appends: earlier blocks keep their code, only the insertion block is extended, outer scopes are unchanged |
| Codegen.Codegen.GenStmts | src/codegen/codegen.cpp:1083-1095 | the emitter's new state is the specified one; once the block has its terminator the rest is skipped |
| Codegen.Codegen.GenStmt | src/codegen/codegen.cpp:1097-1160 | dispatch on the statement leaves the specified state |
| Codegen.Codegen.GenBlock | src/codegen/codegen.cpp:1162-1166 | a block is its statements in a scope of their own |
| Codegen.Codegen.GenIf | src/codegen/codegen.cpp:1168-1190 | three new blocks, the branch, both bodies with a jump to the merge block where they are open |
| Codegen.Codegen.GenWhile | src/codegen/codegen.cpp:1192-1214 | header, body and exit blocks; the loop stack is as before |
| Codegen.Codegen.GenDoWhile | src/codegen/codegen.cpp:1216-1237 | body, condition and exit blocks; continue goes to the condition |
| Codegen.Codegen.GenForIn | src/codegen/codegen.cpp:1239-1430 | the range form: header, body, increment and exit blocks in a scope with the variable |
| Codegen.Codegen.GenForC | src/codegen/codegen.cpp:1432-1472 | the C form, with the increment block as continue target |
| Codegen.Codegen.RegisterCases | src/codegen/codegen.cpp:1500-1513 | one arm per valued case, the default of the last default case |
| Codegen.Codegen.GenSwitch | src/codegen/codegen.cpp:1474-1531 | the switch instruction, one block per case, unterminated cases falling through |
| Codegen.Codegen.FindLoop | src/codegen/codegen.cpp:1113-1119 | the innermost context with the label |
| Codegen.Codegen.GenBreak | src/codegen/codegen.cpp:1111-1128 | a branch to the exit of the named or innermost context; nothing outside loops, an error for an unknown label |
| Codegen.Codegen.GenContinue | src/codegen/codegen.cpp:1129-1146 | a branch to the header of the named or innermost context, which a switch does not have |
| Codegen.Codegen.GenReturn | src/codegen/codegen.cpp:1978-2000 | the value and the return instruction |
| Codegen.Codegen.GenVarDecl | src/codegen/codegen.cpp:2101-2131 | a new slot with the initial value or zero, in scope after its initialiser |
| Codegen.Codegen.GenExpr | src/codegen/codegen.cpp:2265-2313 | the code and the result operand of an expression |
| Codegen.Codegen.GenUpdate | src/codegen/codegen.cpp:2660-2675 | load, combine, store; the new value is the result |
| Codegen.Codegen.GenLogic | src/codegen/codegen.cpp:2472-2497 | two blocks, the branch on the left operand, the phi of both ends |
| Codegen.Codegen.Lookup | src/codegen/codegen.cpp:4128-4134 | the slot of a name in the innermost scope that has it |
| Codegen.GenFunction | src/codegen/codegen.cpp:498-582 | parameters stored to slots, the body, the implicit return at an open end: the code that the results on lowering are about |
| CleanupMain.CountsAreConserved | src/codegen/codegen.cpp:2101-2131 | in every run cut off anywhere each list's or object's count is the number of slots holding it plus one if it is the result, and no slot holds anything freed; after a return the heap is exactly the returned list with count one; a program without x = x never touches freed memory, and any other only by assigning a variable its own value while it holds the only reference |
| CleanupAgree.CodeMeans | src/codegen/codegen.cpp:1978-1997 | for every body and oracle: a run of the emitted code that touches nothing freed returns exactly the reference that the source means - names looked up in scopes, literals new, calls and assignments handing references on, jumps emptying every variable - and is cut off exactly when the source is |
| CleanupAgree.MeansStmts | src/codegen/codegen.cpp:1083-1166 | from any state in which the slots hold what the variables hold, running the code of statements leaves it so on fall through and jump, and returns what the source returns |
| CleanupAgree.MeansReturn | src/codegen/codegen.cpp:1978-1997 | the result of a return is the value of its expression before the scopes are cleaned up |
| CleanupAgree.MeansAssign | src/codegen/codegen.cpp:2397-2437 | after x = y the slot of x holds what the slot of y held; after a literal, a new list |
| CleanupAgree.MeansDecl | src/codegen/codegen.cpp:2101-2131 | the slot of a declaration holds its first value, in the innermost scope |
| CleanupLaws.PlaceIsLatest | src/codegen/codegen.cpp:4128-4134 | a name means the latest variable of that name in the innermost scope that has one |
| CleanupLaws.StoredHolds | src/codegen/codegen.cpp:2397-2437 | a store changes what that variable holds and nothing that another name means |
| CleanupLaws.LiteralIsReturned | src/codegen/codegen.cpp:1978-1997 | `list x = [..]; return x;` returns a new list with count one and leaves nothing else |
| CleanupLaws.AssignedIsReturned | src/codegen/codegen.cpp:2397-2437 | `list x = f(); list y = [..]; y = x; return y;` returns what the call gave, and the literal is freed |
| CleanupMain.CleanupsTakeEffectInReverse | src/codegen/codegen.cpp:3958-4054 | in every run, cut off anywhere, what takes effect was registered after everything else that still waits, across all nested scopes and all three kinds of cleanup; a release or destructor takes effect only for what its variable holds; at a return nothing is held, and whatever a variable came to hold was cleaned up once or given up by delete or assignment; a destructor runs at most as often as its declaration was passed |
| CleanupMain.DeferredRuns | src/codegen/codegen.cpp:1123-1146 | in every run that returns a deferred body has run as often as it was registered plus the number of breaks and continues taken with it registered around the loop |
| CleanupMain.CleanupsRunOnceInReverse | src/codegen/codegen.cpp:3906-3956 | hence a run that returns has each cleanup take effect once, in reverse, if and only if no jump was taken with a deferred body registered around its loop |
| CleanupMain.EffectsAreBounded | src/codegen/codegen.cpp:3958-4054 | in every run that returns any cleanup - release, destructor or deferred body - takes effect at most as often as it was registered plus the jumps taken with it registered around the loop; so at most once per registration where there is no such jump |
| CleanupMain.WhenCleanupsRunTwice | src/codegen/codegen.cpp:4025-4054 | decided on the program: a returning run can have a cleanup take effect without being registered anew only if control can come to a break or continue that was generated with a deferred body registered around its loop; if it can, some run does or some run is broken off by an x = x, and in a program without x = x it is an if and only if |
| CleanupMain.SelfAssignmentFails | src/codegen/codegen.cpp:2397-2418 | the failing input: a list literal assigned to itself |
| CleanupMain.BreakRunsDeferTwice | src/codegen/codegen.cpp:1123-1128 | the failing input: a defer before a loop with a break is registered once and runs twice |
| CleanupMain.RefilledIsReleasedTwice | src/codegen/codegen.cpp:4005-4023 | a list variable that a break has emptied and an assignment has filled again is released twice for one registration, once for each list: the bound with one jump is reached |
| CleanupSim.SimStmts | src/codegen/codegen.cpp:1083-1166 | from any state with right counts and order, running the emitted code of any statements keeps both on fall through, jump, return and cut-off, for any choices of the oracle |
| CleanupSim.UnwindGood | src/codegen/codegen.cpp:4025-4048 | running a scope's cleanups empties exactly its slots, keeps the counts and takes effect last entry first |
| CleanupProof.AssignOther | src/codegen/codegen.cpp:2397-2437 | assignment between different variables keeps the counts, in the order value, release, retain, store |
| CleanupProof.AssignSelf | src/codegen/codegen.cpp:2397-2437 | x = x touches freed memory if and only if x holds the only reference, and otherwise changes nothing |
| CleanupProof.InitSound | src/codegen/codegen.cpp:2101-2131 | the first value of a variable: loaded values are retained, call results - null, a new list, or one that is alive with a reference more - are not |
| CleanupProof.KeepSound | src/codegen/codegen.cpp:1978-1996 | the returned value is retained before the scopes are released |
| CleanupProof.ClearBalanced | src/codegen/codegen.cpp:4005-4023 | releasing or destroying what a slot holds and nulling it keeps all counts and changes nothing else |
| CleanupProof.DecrementBalanced | src/runtime/list.c:128-140 | release takes one owner away and frees at the last |
| CleanupCodegen.CleanupCodegen.EnvPush | src/codegen/codegen.cpp:3900-3904 | a new scope with no entries |
| CleanupCodegen.CleanupCodegen.EnvPop | src/codegen/codegen.cpp:3906-3931 | the scope's cleanups, last first, only where the end is reachable |
| CleanupCodegen.CleanupCodegen.EnvDefine | src/codegen/codegen.cpp:3933-3956 | a slot in the innermost scope, registered for release or destruction |
| CleanupCodegen.CleanupCodegen.EmitAllScopes | src/codegen/codegen.cpp:4040-4048 | all entries of all scopes, innermost scope and last entry first |
| CleanupCodegen.CleanupCodegen.GenStmt | src/codegen/codegen.cpp:1097-1160 | the emitted piece, the scopes after it and whether the block is open are the specified ones |
| CleanupCodegen.CleanupCodegen.GenJump | src/codegen/codegen.cpp:1111-1146 | break and continue unwind every scope before they jump |
| CleanupCodegen.GenFunction | src/codegen/codegen.cpp:541-582 | the body and, at an open end, all cleanups before the implicit return: the code that the results on counts and order are about |
| Channel.NoWakeupIsLost | src/runtime/achan_rt.c:96-164 | after any run of any number of threads: while a receiver sleeps on an open channel, items <= signalled receivers; while a sender sleeps, free slots <= signalled senders; on a closed channel nobody sleeps |
| Channel.AllAsleepMeansWaiting | src/runtime/achan_rt.c:126-164 | if every thread in a call sleeps unsignalled, all are receivers of an empty open channel or all are senders to a full one |
| Channel.QueueIsFifo | src/runtime/achan_rt.c:96-164 | at every moment accepted = delivered + buffered, the bound holds, and after a close later receives deliver exactly what was accepted before |
| Channel.HistoryGrows | src/runtime/achan_rt.c:57-65 | between two moments both histories only grow at the end; after a close nothing more is accepted |
| Channel.StepKeeps | src/runtime/achan_rt.c:57-164 | every step (call, pass under the mutex, non-blocking operation, close, spurious wakeup) keeps the invariant |
| ChannelRing.Ring.constructor | src/runtime/achan_rt.c:32-43 | an empty open channel; capacities below one become one |
| ChannelRing.Ring.Send | src/runtime/achan_rt.c:131-144 | one pass of a send: wait, dropped or appended at the end of the represented queue |
| ChannelRing.Ring.Recv | src/runtime/achan_rt.c:147-164 | one pass of a receive: wait, ended, or the first item of the represented queue |
| ChannelRing.Ring.TrySend | src/runtime/achan_rt.c:96-110 | refused when closed or full, else appended and a receiver signalled |
| ChannelRing.Ring.TryRecv | src/runtime/achan_rt.c:113-126 | the first item and a signal to a sender, or nothing |
| ChannelRing.Ring.Close | src/runtime/achan_rt.c:57-65 | only the flag changes, the items stay; everyone is woken |
| ChannelList.LinkedChan.Send | src/runtime/thread_rt.c:352-369 | one pass of a send on the linked list, as on the ring |
| ChannelList.LinkedChan.Recv | src/runtime/thread_rt.c:371-387 | one pass of a receive on the linked list, as on the ring |
| ChannelList.LinkedChan.TryRecv | src/runtime/thread_rt.c:390-408 | an item and a signal to a sender, empty, or closed and empty |
| ChannelList.LinkedChan.Close | src/runtime/thread_rt.c:410-418 | only the flag changes; everyone is woken |
| ChannelSame.RunBoth | src/runtime/thread_rt.c:352-418 | ring and linked list of the same positive capacity answer every sequence of sends, receives and closes alike |
| RuntimeLaws.SendsWithRoom | src/runtime/achan_rt.c:131-144 | a send that gets the mutex of an open channel with room leaves the call with its value accepted last |
| RuntimeLaws.ReceivesFirst | src/runtime/achan_rt.c:147-164 | a receive that gets the mutex of a channel with items leaves the call with the first |
| RuntimeLaws.WaitsOrEnds | src/runtime/achan_rt.c:131-164 | otherwise it sleeps on an open channel and ends with nothing on a closed one |
| Pool.PoolAccounting | src/runtime/pool_rt.c:41-62 | after any run: pending = queued + running, tasks start in order of submission and finish at most as often as started, a sleeping wait has pending > 0, and while a worker sleeps the pool is not shut down and queued <= signalled workers |
| Pool.WaitSeesAllDone | src/runtime/pool_rt.c:92-98 | a wait returns only with nothing queued or running and everything submitted finished |
| Pool.WaiterIsNotStuck | src/runtime/pool_rt.c:77-98 | while a wait sleeps and a worker is left, some worker is neither asleep nor gone |
| Pool.LastExitLeavesNothing | src/runtime/pool_rt.c:47-50 | when the last worker exits the queue is empty, nothing runs and all submitted tasks are finished |
| Pool.ShutdownDrains | src/runtime/pool_rt.c:100-107 | after a shutdown and without new submissions workers take exactly as many more steps as the measure drops, and until all have exited one of them can take another |
| Pool.StartedIffAWorkerWasLeft | src/runtime/pool_rt.c:41-90 | over runs from the start: a task submitted to a pool that later has lost all its workers, nothing more being submitted, has been started if and only if some worker was left at the submission |
| Pool.SubmitAfterExitIsLost | src/runtime/pool_rt.c:77-90 | a task pending when all workers have exited is never started, and waits never return |
| Pool.SubmitAfterExitHappens | src/runtime/pool_rt.c:77-107 | one worker, shutdown, it exits, then a submission: such a state is reached from the start |
| Pool.StepKeeps | src/runtime/pool_rt.c:41-107 | every step keeps the invariant |
| RuntimeLaws.WorkersTakeTheFirst | src/runtime/pool_rt.c:45-54 | a worker that gets the mutex starts the first task; without one it sleeps, or exits after a shutdown |
| RuntimeLaws.PoolSize | src/runtime/pool_rt.c:64-75 | a pool of n workers has n, and four when n is not positive |
| PoolQueue.TaskPool.Submit | src/runtime/pool_rt.c:77-90 | the task goes to the end of the represented queue and is counted |
| PoolQueue.TaskPool.PickUp | src/runtime/pool_rt.c:45-54 | sleep, quit, or the first task of the represented queue |
| PoolQueue.TaskPool.Finish | src/runtime/pool_rt.c:57-60 | one less pending; the waiting threads are woken at zero |
| Dict.Dict.Set | src/runtime/dict.c:80-88 | the contents with the key set; the table doubles and forgets its tombstones exactly when (len + tomb) * 4 >= cap * 3, else the counter stays, also when a tombstone is reused |
| Dict.Dict.Get | src/runtime/dict.c:90-102 | the value of the key in the represented map, or nothing |
| Dict.Dict.Has | src/runtime/dict.c:104-115 | whether the key is in the represented map |
| Dict.Dict.Del | src/runtime/dict.c:117-135 | the contents without the key; the counter goes up by one if it was there |
| Dict.Dict.Len | src/runtime/dict.c:137-139 | the number of keys |
| Dict.Dict.Find | src/runtime/dict.c:90-102 | the probe ends and finds the slot of the key exactly when it is there |
| Dict.Dict.InsertRaw | src/runtime/dict.c:42-63 | insert or overwrite in a table with a free slot; the first tombstone on the way is taken |
| Dict.Dict.Grow | src/runtime/dict.c:65-78 | twice the capacity, the same contents, no tombstones, at most half full |
| Dict.Dict.HashStr | src/runtime/dict.c:22-29 | FNV-1a over the bytes of the key |
| RuntimeLaws.HashOfLonger | src/runtime/dict.c:22-29 | the hash of a longer key is the last byte mixed into the hash of the rest |
| RuntimeLaws.KnownHashes | src/runtime/dict.c:22-29 | the published FNV-1a values of "", "a" and "ab" |
| Dict.RunOps | src/runtime/dict.c:80-139 | a new dictionary answers every sequence of set, del, get, has and len as a mathematical map does |
| DictTable.ProbeEnds | src/runtime/dict.c:42-54 | a probe cannot go all the way around a table with an empty slot |
| DictTable.ProbeMisses | src/runtime/dict.c:90-102 | a probe that meets an empty slot has shown that the key is absent |
| DictTable.Inserted | src/runtime/dict.c:55-62 | a new entry behind such a probe keeps distinct keys and every probe chain |
| DictTable.Deleted | src/runtime/dict.c:124-130 | a tombstone keeps the chains of all other keys |
| DictTable.SomeEmpty | src/runtime/dict.c:80-83 | fewer used slots than capacity leave an empty one |
| Generics.ResolvedName | src/sema/generics.cpp:381-395 | resolving a nested type bottom-up gives the name that mangling the whole tree gives |
| Generics.SubstResolves | src/sema/generics.cpp:33-44 | substituting resolved arguments and resolving is substituting the originals and resolving |
| Generics.ResolveIsResolved | src/sema/generics.cpp:381-395 | a resolved type has no type arguments anywhere |
| GenericsNames.NamesAreFaithful | src/sema/generics.cpp:16-28 | with one arity per name, no function types, and names without double or trailing underscore, two types get the same name if and only if they differ at most in const |
| GenericsNames.JoinInjective | src/sema/generics.cpp:16-28 | names joined by double underscores can be split in one way only |
| GenericsNames.NamesCollide | src/sema/generics.cpp:16-28 | different types with the same name, one for each dropped condition |
| GenericsMain.Expand | src/sema/generics.cpp:584-716 | the worklist loop ends whenever the instantiations stay inside a finite closed set, and returns the specified program |
| GenericsMain.NoTypeArgumentsRemain | src/sema/generics.cpp:540-560 | no type expression on a walked node of the returned program has type arguments if and only if there is a template in the program or there were no type arguments to begin with |
| GenericsShape.ExpandedProgram | src/sema/generics.cpp:584-716 | the returned program is one declaration per instantiation - the last class or else function template of that name and arity, with params[i] read as args[i] in every type and then reduced - followed by the original declarations without templates; every body keeps its shape and number of items, with each type on a walked node reduced and skipped nodes as they were |
| GenericsBodies.FixReduces | src/sema/generics.cpp:397-560 | a walked body keeps kinds and number of items at every level, and each of its types becomes a plain one named by mangling; skipped and opaque nodes are unchanged |
| GenericsBodies.ReplaceReads | src/sema/generics.cpp:33-44 | substitution reads params[i] as args[i], the last of two parameters of one name, and keeps const |
| GenericsBodies.CloneReads | src/sema/generics.cpp:316-345 | a cloned body has the shape of the template with every type read; match and await leave an empty node |
| GenericsShape.LookupFinds | src/sema/generics.cpp:590-601 | an instantiation comes from the last class template of the name, else the last function template, and only with the right number of parameters |
| GenericsUses.FirstKeysAreNeeds | src/sema/generics.cpp:381-395 | the worklist starts with exactly the instantiations that a type with arguments on a walked node outside templates asks for, at any depth |
| GenericsUses.CopyKeysAreNeeds | src/sema/generics.cpp:648-652 | an instantiation adds exactly what the template asks for when it is read with the arguments |
| GenericsUses.NeedsAreDeclared | src/sema/generics.cpp:618-690 | a used type with arguments whose template exists is declared in the returned program under its mangled name |
| GenericsDecls.OneDeclarationEach | src/sema/generics.cpp:618-690 | of the program that expansion returns: with one arity per name, no function types and good names, each instantiation that the program or a generated declaration needs and that has a template of the right arity is declared exactly once, next to whatever the program itself declares by that name; nothing else is declared anew |
| GenericsDecls.DeclarationCount | src/sema/generics.cpp:692-716 | for every program and name, the returned declarations of that name are the original ones plus one if the worklist has instantiated it |
| GenericsDecls.RealUnambiguous | src/sema/generics.cpp:622-634 | instantiations that come from types with one arity per name and good names never share a name unless both or neither can be made |
| GenericsMain.LogIsComplete | src/sema/generics.cpp:618-690 | the worklist instantiates each name at most once, and each needed name exactly once when instantiations of one name agree on having a template |
| GenericsMain.TemplatesRemainOnlyDeep | src/sema/generics.cpp:692-714 | a template remains if and only if the program has one in a namespace inside a namespace |
| GenericsExpand.WorkCovers | src/sema/generics.cpp:618-690 | from any point of the worklist on nothing that is pending or needed by an instantiation is forgotten |
| GenericsTurns.EndsIffNamesAreFinite | src/sema/generics.cpp:618-690 | the worklist ends if and only if the names that are ever pending are finitely many |
| GenericsTurns.EndsWhenClosed | src/sema/generics.cpp:618-690 | it ends whenever the instantiations stay inside a finite closed set |
| GenericsLimits.NeverEnds | src/sema/generics.cpp:618-690 | class A<T> with a field A<A<T>>: after every number of turns something is pending |
| GenericsLimits.ExpansionWithoutEnd | src/sema/generics.cpp:618-690 | hence it has no finite closed set |
| GenericsLimits.ArgumentsStay | src/sema/generics.cpp:584-602 | a use of A<int> in a program without templates is returned as it is |
| GenericsLimits.UsedButNotDeclared | src/sema/generics.cpp:622-634 | A<B<C>> next to A<B, C>: the used one is never declared |
| GenericsLimits.DeclaredTwice | src/sema/generics.cpp:692-716 | A<int> next to a class A__int: both are declared |
| Stage2Back.PrintedParsesBack | bootstrap/dux_stage2.dux:841-1104 | for every tree with the right tokens and every continuation that does not extend an expression, the printed tokens parse to a tree given by recursion on the original, and exactly they are consumed |
| Stage2Back.ComesBackIffGood | bootstrap/dux_stage2.dux:841-1104 | that is the same tree if and only if no postfix form has a prefix form as base and no assignment is an operand, a base or the left side of an assignment |
| Stage2Proof.WholeBack | bootstrap/dux_stage2.dux:841-855 | every written form with parentheses anywhere parses to its tree: assignments to the right, binary operators between operands that bind tighter or, on the left, as tightly |
| Stage2Proof.LevelBack | bootstrap/dux_stage2.dux:857-911 | an operand of each of the five levels reads back at that level, whatever its operands |
| Stage2Proof.BaseBack | bootstrap/dux_stage2.dux:937-974 | a base reads back together with whatever postfix forms follow it |
| Stage2Proof.ArgsBack | bootstrap/dux_stage2.dux:976-992 | argument and element lists read back up to their closing token |
| Stage2Back.PrefixBaseIsLost | bootstrap/dux_stage2.dux:913-935 | a postfix form of a prefix form always comes back as a prefix form or an assignment |
| Stage2Back.AssignmentOperandIsLost | bootstrap/dux_stage2.dux:845-855 | a binary, prefix or postfix form with an assignment as operand or base always comes back as an assignment |
| Stage2Ranks.ProductsBeforeSums | bootstrap/dux_stage2.dux:891-911 | for any operands, + or - and *, / or %: `x + y * z` parses to `x + (y * z)` and `x * y + z` to `(x * y) + z` |
| Stage2Ranks.SumsBeforeComparisons | bootstrap/dux_stage2.dux:879-911 | the same for sums and products against comparisons |
| Stage2Ranks.ComparisonsBeforeAndBeforeOr | bootstrap/dux_stage2.dux:857-889 | the same for comparisons against && and \|\|, and for && against \|\| |
| Stage2Ranks.LeftToRight | bootstrap/dux_stage2.dux:857-911 | `x - y - z` parses to `(x - y) - z`; so for all sums, all products, && and \|\| |
| Stage2Ranks.SecondComparisonIsLeft | bootstrap/dux_stage2.dux:879-889 | of `x < y < z` the parser reads `x < y` and leaves the rest |
| Stage2Ranks.PrefixesFirst | bootstrap/dux_stage2.dux:913-935 | !, -, ~ and await apply to the operand behind them before any binary operator |
| Stage2Ranks.WrittenComesBack | bootstrap/dux_stage2.dux:841-1104 | every tree with the right tokens comes back from the text that has parentheses only where an operand binds less tightly than its operator asks for |
| Stage2Parser.Parser.ParseExpr | bootstrap/dux_stage2.dux:841-855 | the text built is the printed form of the parsed tree, and the position is behind it |
| Stage2Parser.Parser.ParseLevel | bootstrap/dux_stage2.dux:857-911 | the same for the five operator levels; comparisons do not chain |
| Stage2Parser.Parser.ParsePostfix | bootstrap/dux_stage2.dux:937-974 | the same for postfix forms |
| Stage2Parser.Parser.ParseArgs | bootstrap/dux_stage2.dux:976-992 | the same for lists with optional commas |
| Stage2Parser.Parser.ParsePrimary | bootstrap/dux_stage2.dux:994-1104 | the same for primaries; a token that fits nowhere is taken as it is |
| Stage2Parser.Twice | bootstrap/dux_stage2.dux:841-1104 | the parser run on its own output for a good tree gives that output again; for any tree with the right tokens, the printed form of what it comes back as |
| WsFrame.FrameBack | src/runtime/ws_rt.c:210-247 | every frame reads back from the wire, at all three length encodings, with any mask and reserved bits, and what follows is left |
| WsFrame.ReadIsEncoding | src/runtime/ws_rt.c:210-247 | whatever reads as a frame is the encoding of that frame |
| WsWire.XorFlips | src/runtime/ws_rt.c:245 | masking: bit j of the result is one exactly when bit j of the data and bit j of the key byte differ |
| WsWire.FrameOnTheWire | src/runtime/ws_rt.c:210-247 | a frame is read exactly when all of it is there, and it is what its bytes say: FIN and opcode from the first byte, the length highest byte first, payload byte i flipped by key byte i % 4, the rest behind it |
| WsWire.OpcodesOnTheWire | src/runtime/ws_rt.c:249-288 | 8 in the low bits of the first byte ends, 9 is answered with the payload, 10 is passed over, any other frame adds its payload and completes the message when the highest bit is set |
| WsWire.SentOnTheWire | src/runtime/ws_rt.c:137-186 | the bytes of a sent frame one by one: FIN and opcode, the shortest of the three lengths, key and flipped data |
| WsWire.PongOnTheWire | src/runtime/ws_rt.c:253-256 | a ping is answered with 8A, the length and the same bytes |
| WsWire.MaskedHelloIsReceived | src/runtime/ws_rt.c:243-246 | the masked "Hello" of section 5.7 of RFC 6455, as a text message and as a pong |
| WsWire.PlainHelloIsReceived | src/runtime/ws_rt.c:249-288 | its unmasked, fragmented and ping examples |
| WsWire.LongFrames | src/runtime/ws_rt.c:220-229 | its examples of 256 and 65536 bytes |
| WsMessage.ReassemblyIsExact | src/runtime/ws_rt.c:206-288 | the receiver returns a payload, leaves a rest and answers pings if and only if the stream starts with fragments of that payload, FIN on the last, with those pings in that order among them |
| WsMessage.SentIsReceived | src/runtime/ws_rt.c:137-186 | an unfragmented sent frame is received as its data at all three length encodings |
| WsConn.Conn.RecvAll | src/runtime/ws_rt.c:190-199 | exactly n bytes in order, however they are cut into pieces, or failure when the stream has fewer |
| WsConn.Conn.RecvFrame | src/runtime/ws_rt.c:210-247 | FIN, opcode and unmasked payload of the next frame, and exactly its bytes are consumed |
| WsConn.Conn.RecvMessage | src/runtime/ws_rt.c:206-288 | the message that the byte stream specifies, the stream behind it, and one pong per ping with its payload in order |
| WsConn.Conn.SendFrame | src/runtime/ws_rt.c:137-186 | the bytes written are the encoding of a FIN frame with the opcode cut to four bits and the shortest length form |
| Sha1.FeedAppend | src/runtime/ws_rt.c:84-90 | feeding a message in two parts is feeding it at once |
| Sha1.PaddedIsWhole | src/runtime/ws_rt.c:92-100 | the padded message is a whole number of blocks |
| Sha1Laws.ConstantsAreRoots | src/runtime/ws_rt.c:74-77 | the constant K of a round satisfies K * K <= n * 2^60 < (K + 1) * (K + 1) for n = 2, 3, 5, 10 in its twenty rounds |
| Sha1Laws.SelectsBits | src/runtime/ws_rt.c:74 | bit by bit, b selects between c and d |
| Sha1Laws.ParityOfBits | src/runtime/ws_rt.c:75-77 | bit by bit, an odd number of ones |
| Sha1Laws.MajorityOfBits | src/runtime/ws_rt.c:76 | bit by bit, at least two ones |
| Sha1Laws.RotatesByFive | src/runtime/ws_rt.c:61 | bit j goes to bit j + 5 modulo 32; RotatesByOne and RotatesByThirty say the same for the other two rotations |
| Sha1Laws.WordIsBigEndian | src/runtime/ws_rt.c:66-68 | a word is its four bytes, the highest first |
| Sha1Laws.PaddingIsExact | src/runtime/ws_rt.c:92-100 | the message, a one bit, the fewest zeros that fill the last block, the number of bits highest byte first |
| Sha1Laws.DigestOfAbc | src/runtime/ws_rt.c:55-107 | the digest of "abc" is A9993E36 4706816A BA3E2571 7850C26C 9CD0D89D |
| Sha1Stream.Sha1Stream.Compress | src/runtime/ws_rt.c:63-82 | the schedule and round loops compute the compression function of the buffered block |
| Sha1Stream.Sha1Stream.Update | src/runtime/ws_rt.c:84-90 | afterwards the state stands for the message so far plus the data, with fewer than 64 bytes buffered |
| Sha1Stream.Sha1Stream.Final | src/runtime/ws_rt.c:92-107 | the padding loop ends and the state is the fold of the compression function over the padded message |
| Sha1Stream.HashParts | src/runtime/ws_rt.c:84-107 | for any way of cutting a message into updates the digest is that of the whole message |
| Str.SplitIsTheOnlyOne | src/runtime/str.c:412-435 | the pieces are a split if and only if joining them gives the string back, no piece contains the separator, and each separator begins where its piece ends and not before |
| Str.FirstPieceEndsAtFind | src/runtime/str.c:243-250 | the first piece ends at find's result when there is one |
| Str.MemFind | src/runtime/str.c:197-205 | the first place of the needle; the empty needle is at 0 |
| Str.Find | src/runtime/str.c:243-250 | that place or -1 |
| Str.SplitString | src/runtime/str.c:412-435 | the split, or every character for an empty separator |
| Str.ReplaceAll | src/runtime/str.c:306-339 | the split pieces joined with the replacement; the same string for an empty pattern |
| StrBuf.StrBuf.Append | src/runtime/str.c:170-177 | the contents grow by the string; capacity stays above the length |
| StrBuf.StrBuf.Grow | src/runtime/str.c:150-157 | the capacity doubles until there is room, and the contents are kept |
| StrBuf.BuildAll | src/runtime/str.c:150-182 | after any appends the result is the concatenation of the parts and all reallocations moved fewer than 2 * (length + 1) bytes |
| List.DuxList.Get | src/runtime/list.c:40-59 | the boxed element, negative indices from the end, an index error outside |
| List.DuxList.Set | src/runtime/list.c:61-77 | that element replaced and no other; a typed list keeps the low 32 bits |
| List.DuxList.GetInt | src/runtime/list.c:106-115 | the typed read is the element of the plain integer sequence |
| List.DuxList.SetInt | src/runtime/list.c:117-126 | the typed write |
| RuntimeLaws.IndexMeans | src/runtime/list.c:41-59 | an index from 0 on counts from the front, a negative one from the end, anything else is an error |
| RuntimeLaws.PutIsRead | src/runtime/list.c:61-77 | what is put at an index is read back there, and every other element is as it was |
| List.DuxList.Push | src/runtime/list.c:32-39 | one more box, also across growth |
| List.DuxList.PushInt | src/runtime/list.c:97-104 | one more integer, also across growth |
| List.Concat | src/runtime/list.c:149-160 | the boxes and the integers of both lists in order, for any mix of representations |
| List.BoxedComesBack | src/codegen/codegen.cpp:1542-1580 | unboxing a boxed 32-bit integer gives it back, negative ones included |
| List.RunBoth | src/runtime/list.c:32-126 | a typed list with typed operations and a pointer list with boxing and unboxing answer every sequence of operations as a plain sequence does |

## Left out

- LowerMain.LoweringIsCorrect: is about functions whose variables are declared before use, whose range bounds do not mention the loop variable's name, and whose switch labels are integer literals; so are LowerMain.DivergenceIsPreserved, LowerSafe.NeverStuck and the simulation lemmas. With such a bound the result is false (LowerRange.OwnBoundIsLost), and the condition is exact for the emitted code (LowerRange.RangeIsTheOuterOne). An assignment to an undeclared name, which declares it, is not modelled.
- LowerSim.SimForC: the start of a C-style loop does not mention the loop variable. The checker and the emitter both mean the new variable there, which has no value yet; a start that assigns it before reading it is not modelled.
- LowerMain.LoweringIsCorrect: division and remainder by zero, and of the least integer by -1, are undefined in the generated code; the model gives both sides the same total operation, and ScalarLaws.DivisionTruncates speaks of the others.
- Codegen.Codegen.GenStmt: dispatches the scalar statements; match, try, throw, assert, delete and defer are not among them. Nor are list loops in Codegen.Codegen.GenForIn, retains and cleanups in Codegen.Codegen.GenReturn and Codegen.Codegen.GenVarDecl, values other than integers in Codegen.Codegen.GenExpr, and methods, constructors and destructors in Codegen.GenFunction.
- Lowering of floats, mixed integer widths, bitwise complement, list iteration, closures, classes, match, try, await and enum payloads; constant folding by the builder; labels on loops other than while, which the grammar does not produce.
- A call with an effect stands in the lowering model as one print instruction.
- CleanupMain.CountsAreConserved: is about lists declared from literals, calls or other list variables and objects made where they are declared. Dictionaries use the same code with another release symbol and are not repeated.
- Assigning null to a list variable, which stores null without releasing the old list; list parameters, which are borrowed and not registered; copies and returns of objects, which are not counted; temporaries that are never stored; list elements that are counted themselves.
- CleanupCodegen.CleanupCodegen.EnvPush: string scopes, and with them the string parts of EnvPop, EnvDefine and GenFunction, are not modelled; nor are labels in GenJump, and GenStmt has the statements of this model only.
- Strings, whose slots are released without being nulled; closures' environments; throw and try/catch, which unwind every active scope; bodies of defers, which are opaque events.
- The emitted cleanup code is a tree of instructions, with the null checks of each release inside one instruction, and not basic blocks.
- Channels and pool: null handles, freeing a channel or pool that is in use, failed allocations. A step is a whole pass under the mutex; memory ordering outside the mutex is not modelled.
- The second copy of the pool in the thread runtime, locks, futures and the event loop.
- Dict.Dict.Set: keys are byte strings without a terminator and copies of keys are not tracked; reference counting of dictionaries is that of lists.
- Generics: the in-place rewriting of the syntax tree is modelled on values, as the rewritten tree and the list of instantiations it pushes. Bounds checks, which only report errors, renaming of constructors, decorators, static and async flags are not modelled.
- Stage2Back.PrintedParsesBack: is on tokens; Stage2Parser.Parser.ParsePrimary is, too. Characters are not modelled: `- -x` prints as `--x`, and float texts are normalised. The forms `new` and `fn`, type expressions, statements and declarations are not modelled, and there are no newline tokens inside an expression.
- WsConn.Conn.SendFrame: a send that writes only part of its bytes is not retried by the code, so that a frame may be cut short; the model writes all of it.
- WsConn.Conn.RecvMessage: a failing send is ignored, as in the code; the masking key of a sent frame is a parameter instead of a random number. Sockets, the handshake and base64 are not modelled.
- Sha1Stream.Sha1Stream.Final: returns the five words; writing them out as twenty bytes is not modelled.
- Str: null strings, short-string storage, case conversion, trimming, slicing and number parsing, which would only add easier members.
- List.DuxList.Push: pushing a pointer to an integer list writes eight bytes into four-byte cells and, like the reverse in List.DuxList.PushInt, is a caller's error, which the code does not test. Null lists and the static analysis that picks the typed loop are not modelled.
- Out-of-memory aborts, and lengths and capacities beyond 64 bits.
- The lexer, the grammar, the type checker, the driver, optimisation passes, and the input/output libraries.

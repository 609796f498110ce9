# SGScript: a verified model of its compiler, VM, collector and parsers

SGScript is a scripting language with a one-pass bytecode compiler, a register VM whose call
loop does not recurse, coroutines, and a mark/sweep collector on top of reference counts. This
project models the parts of it in which an error would be hardest to see, and proves what each
of them promises. `dafny verify dfyconfig.toml` checks everything.

The C code works by changing things step by step, so each part comes as a class whose methods
do what the C functions do, in place, and as functions that say what the result is; what the
system promises is then proved about those functions, for all inputs and all runs.

**Bytecode generator.** `CodeGen.FuncCtx` has the fields of the compiler's function context:
code, constants, register watermark and its maximum, loop depth, pending breaks, deferred
statements, variables. Its methods emit placeholders, overwrite them, link and unlink pending
breaks. They are proved against `Compile`, where a pending break is an instruction of its own
(`Pend`) and patching replaces it. `Source` gives programs a meaning of their own: an operand is
a *place* that is read when its operator fires, because a bare local yields its own register.
`Bytecode` is the VM's loop over instruction words. `FunctionProof.CompileCorrect` and
`CompileComplete` say that the words run to the same result and the same variables as the
source, in both directions. The fragment: locals, constants, unary and binary operators (any
meaning), `&& || ??` and their assigning forms, assignments, `++ --`, blocks, if/else, while,
do-while, for, numeric for, `break n`, `continue n`, `defer`, `return`. Deferred statements may
nest; `lev` is any bound on that nesting, so it restricts nothing.

`Source` has two readings of the numeric loop: in `Own` each loop keeps its current number, end
and step to itself, as one would expect; in `Shared` they lie in three hidden registers that all
loops over one variable use, as the compiler has it. Both theorems hold for every function of
the fragment in the second reading, and in the first for every function in which no numeric
loop contains another one over the same variable (`StmtProof.NoReuse`). `SharedLoops` proves
that for those functions the readings agree, and `LoopReuse` what happens to the others.

**Calls.** `CallVM.VM` has the value stack, the window's offset, the frame list and the status;
its methods are the stack operations, the call, the return by `vm_postcall` and by the shortcut
in RET1, pause, resume and abort, and the loop over them. `CallMachine` says what each of them
leaves behind. `CallProof` proves what holds over runs: the loop without recursion does what
recursive calls would do, pausing and resuming cannot be seen from inside, abort unwinds.

**Collector, pool, parser, JSON, profiler, threads.** `Collector.Shared` holds real objects with
colours, counts and references; `ObjPool.Allocator` the sorted array of freed blocks;
`ExprNodes` the linked token list that the parser cuts and relinks; `JsonCode` the decoder's
loop with its two stacks and the encoder; `Profiler.ProfData` the sampled frames and the timing
table; `ThreadMap.ThreadObject` the linked-list map that threads share under a lock.

**What the parts share.** A definition that both sides of a proof use is only as good as what
says that it is right, so each of them is tied to something that does not use it. `ValueFacts`
gives wrap-around, `++ --`, tests, loop bounds and instruction words as tables and formulas;
`Acceptance` says exactly which functions compile; `CallFacts` what a CALL leaves, register by
register; `ExprTable` has the precedence of operators as a table and proves that the parser
groups by it; `JsonText` is the grammar of JSON texts and what they mean, and the decoder and
the encoder are proved against it; `ProfilerTime` has the time of a call path as a sum of
intervals.

Six things the proofs brought to light are stated as theorems:

- A left operand that is a bare variable is read late: `x + (x = 5)` adds 5 and 5
  (`SourceFacts.LateRead`). `AgreeExactly` says exactly when this makes no difference, and
  `PlacesAreValues` gives a condition that can be read off the program.
- Hidden registers of a numeric loop are inserted behind its variable. If that variable is a
  parameter, the parameters after it no longer sit where the caller puts them
  (`CallLink.SecondParameterLost`); `CallLink.ArgumentsArriveExactly` gives the exact condition.
- A numeric loop inside another one over the same variable overwrites the outer loop's numbers:
  `for i : (0, 3, 1) { for i : (0, 1, 1) {} ++c; }` makes one round and not three
  (`CutShort.CountCutShort`, down to the instruction words). With constant bounds inside, the
  outer loop makes exactly one round, so the two readings agree exactly if it should make no
  more than one (`LoopReuse.ReuseExactly`).
- An operator behind a leading `++` or `--` is taken as binary, so `++ - a` does not parse
  (`ExprParser.BumpMinus`).
- Surplus arguments end up below the callee's window in *reverse* order, because
  `stk_transpose` reverses twice and not three times (`CallVM.VM.StkTranspose`); this is what
  the description at src/sgs_proc.c:2491 calls inverted extra arguments.
- The JSON encoder copies control characters into its strings and the decoder refuses them, so
  of all values that are otherwise in range exactly those without control characters survive
  (`JsonRefused.RoundTripExactly`).

## Model

| member | source | states |
|---|---|---|
| FunctionProof.CompileCorrect | src/sgs_bcg.c:2506-3029 | compiler correctness: if the body finishes or returns, the emitted words run from the first instruction to a return with the same result and the same values in the variables' registers; if it needs more steps than the fuel, the code is still running after at least that many. For every function if loops over one variable share its hidden registers; if each loop keeps its own numbers, for every function without a numeric loop inside another one over the same variable |
| FunctionProof.CompileComplete | src/sgs_bcg.c:2506-3029 | the converse, for the same functions: if the emitted words return, the body finishes, with that result and those variables |
| FunctionProof.JumpsLand | src/sgs_bcg.c:2110-2156 | read back from the words of a function of at most 32767 instructions, behind any closure prefix, every jump lands on an instruction of the function and no placeholder or pending break is left |
| FunctionProof.FnShape | src/sgs_bcg.c:2159-2200 | every operand of a compiled function is a register below the counted maximum or a constant that exists, and every jump stays inside |
| Acceptance.CompilesExactly | src/sgs_bcg.c:2159-2200 | a function of at most 32766 instructions with at most 256 deferred statements compiles exactly if every break and continue names a loop around it, at most 255 registers are needed, and at most 65536 constants |
| Acceptance.TooManyDefers | src/sgs_bcg.c:179-189 | with 257 deferred statements open it does not |
| Acceptance.InFragment | src/sgs_bcg.c:2506-3029 | every statement of the modelled kinds without deferred ones belongs to the fragment of CompileCorrect, at any depth of loops |
| Acceptance.DeferInFragment | src/sgs_bcg.c:3025-3027 | and so does one that stays inside itself, deferred in a block |
| CodeGen.FuncCtx.CompileFn | src/sgs_bcg.c:2159-2200 | the generator succeeds exactly if the specification does; then code, constants and temporaries are the specified ones and no break is pending |
| CodeGen.FuncCtx.PrefixBytecode | src/sgs_bcg.c:2110-2156 | in front of the code go exactly the captured arguments, in order, each into the first closure slot of its name, and behind it one RETN 0 |
| CodeGen.FuncCtx.CompileNode | src/sgs_bcg.c:2506-2590 | compiling a statement appends its specified code with placeholders for what is pending, lists what is pending, and leaves loops, deferred statements and variables as they were |
| CodeGen.FuncCtx.CompileNodeR | src/sgs_bcg.c:2346-2480 | compiling an expression for its value appends the specified code, answers the specified place, and never lowers the watermark |
| CodeGen.FuncCtx.CompileNodeW | src/sgs_bcg.c:2280-2344 | storing to a variable: one SET at most, none if the value is there already |
| CodeGen.FuncCtx.CompileConst | src/sgs_bcg.c:1289-1336 | a constant's place: its index if it fits the operand field, else a register it is loaded to |
| CodeGen.FuncCtx.ConstMaybeLoad | src/sgs_bcg.c:1130-1149 | from index 256 on a constant is loaded to a fresh register; past 65535 it is an error |
| CodeGen.FuncCtx.AddConstant | src/sgs_bcg.c:864-919 | a constant already present is reused, else it goes to the end |
| CodeGen.FuncCtx.FindVar | src/sgs_bcg.c:192-207 | the first position of the name, or -1 |
| CodeGen.FuncCtx.RegAlloc | src/sgs_bcg.c:81-90 | hands out the watermark and raises it; more than 255 is an error |
| CodeGen.FuncCtx.RegAllocN | src/sgs_bcg.c:92-108 | on success the watermark has risen by n |
| CodeGen.FuncCtx.RegUnwind | src/sgs_bcg.c:117-123 | lowers the watermark and keeps its maximum |
| CodeGen.FuncCtx.CompileUnary | src/sgs_bcg.c:1960-2050 | unary operators: target register first, then the operand |
| CodeGen.FuncCtx.CompileBinary | src/sgs_bcg.c:1960-2050 | binary operators: target register first, then both operands, read as places |
| CodeGen.FuncCtx.CompileLazy | src/sgs_bcg.c:1772-1845 | the short-circuit operators with their two forward jumps |
| CodeGen.FuncCtx.CompileLazyAssign | src/sgs_bcg.c:1772-1845 | their assigning forms |
| CodeGen.FuncCtx.CompileBump | src/sgs_bcg.c:1846-1869 | `++` and `--`, with a copy only if the old value is wanted |
| CodeGen.FuncCtx.CompileAssign | src/sgs_bcg.c:1916-1919 | plain assignment answers the variable's own register |
| CodeGen.FuncCtx.CompileOpAssign | src/sgs_bcg.c:1934-1957 | operator assignment goes through a temporary |
| CodeGen.FuncCtx.CompileNodeRrw | src/sgs_bcg.c:1670-1686 | an expression into a given register |
| CodeGen.FuncCtx.CompileBlock | src/sgs_bcg.c:2590-2602 | a block's statements, then its own deferred ones, which are forgotten afterwards |
| CodeGen.FuncCtx.CompileIf | src/sgs_bcg.c:2603-2671 | if/else with its placeholders overwritten |
| CodeGen.FuncCtx.CompileFor | src/sgs_bcg.c:2672-2808 | while and for: continues are patched behind the body, breaks behind the jump back |
| CodeGen.FuncCtx.CompileDo | src/sgs_bcg.c:2719-2752 | do-while: continues are patched in front of the test |
| CodeGen.FuncCtx.CompileNum | src/sgs_bcg.c:2809-2886 | numeric for: bounds into the hidden registers, then the preparing and the repeating jump |
| CodeGen.FuncCtx.CompileExit | src/sgs_bcg.c:2953-3023 | break and continue: refused outside that many loops; else the deferred statements of the blocks being left and one pending placeholder |
| CodeGen.FuncCtx.CompileReturn | src/sgs_bcg.c:2557-2589 | return: the value's place first, then all deferred statements, then RET1 or RETN 0 |
| CodeGen.FuncCtx.CompileDefers | src/sgs_bcg.c:1112-1125 | everything deferred since a given block, latest first, each able to reach nothing around it |
| CodeGen.FuncCtx.DeferAdd | src/sgs_bcg.c:179-189 | one more deferred statement; refused when 256 are open, those of enclosing deferred bodies included |
| CodeGen.FuncCtx.CompileBreaks | src/sgs_bcg.c:2053-2079 | exactly the pending entries of this loop and kind are patched to here and unlinked; an error exactly if one is too far away |
| CodeGen.FuncCtx.LoopBody | src/sgs_bcg.c:2053-2079 | after a loop body and the patching of its continues, nothing pending names a deeper loop |
| CodeGen.FuncCtx.ExpandVarlist | src/sgs_bcg.c:229-248 | three hidden variables behind every numeric loop variable, inserted while walking the list |
| Pending.PatchLoop | src/sgs_bcg.c:126-152 | patching the list of pending entries is replacing the pending instructions of one depth: the code is the patched code, the list its entries |
| Pending.BreaksBefore | src/sgs_bcg.c:2053-2079 | the entries of a loop are in jump range exactly if the pending instructions of its body are |
| Pending.EmittedListed | src/sgs_bcg.c:126-152 | every pending entry points at a placeholder, entries lie in falling order, and none names a loop that is not open |
| ExitProof.PendS | src/sgs_bcg.c:2953-3023 | after a statement inside k loops is compiled, every pending jump names one of those k |
| ExitProof.PatchedBody | src/sgs_bcg.c:2053-2079 | patched code is code whose breaks and continues resolve to the loop's two targets |
| ExitProof.AtLatest | src/sgs_bcg.c:1112-1125 | what is compiled in front of an exit is the latest deferred statement's code followed by the exit code of the others |
| ExprProof.ExprRuns | src/sgs_bcg.c:1737-2050 | every expression's code runs from its first to past its last instruction, updates the store as the place semantics says, leaves its value at the place it answered, and writes only assigned variables and fresh temporaries |
| ExprProof.LazyRuns | src/sgs_bcg.c:1772-1845 | the short-circuit operators skip the right operand exactly if the left one decides |
| ExprProof.BinaryRuns | src/sgs_bcg.c:1960-2050 | the left operand's place is read after the right operand has run |
| Simulation.StmtRuns | src/sgs_bcg.c:2506-3029 | every statement's code simulates it, with hidden registers shared as compiled, whatever way control leaves: falling through, break, continue, return, or still running |
| Simulation.FinallyLeft | src/sgs_bcg.c:1112-1125 | on the way out a deferred statement changes the store and not where control is going |
| Simulation.ForRuns | src/sgs_bcg.c:2672-2808 | the loop's code simulates while and for, for any mix of breaks and continues inside |
| Simulation.DoRuns | src/sgs_bcg.c:2719-2752 | the same for do-while |
| Simulation.NumRuns | src/sgs_bcg.c:2809-2886 | the same for the numeric loop, whatever its body does to the hidden registers |
| SharedLoops.RunLeft | src/sgs_bcg.c:229-248 | a statement without numeric loops over x leaves the three hidden registers of x alone |
| SharedLoops.OwnIsShared | src/sgs_bcg.c:2809-2886 | if no numeric loop contains another one over its variable, a statement ends the same way with the same variables whether its loops keep their numbers to themselves or share registers |
| LoopReuse.RunOver | src/sgs_proc.c:3005-3056 | a loop that is over stays over: whatever a statement without break, continue and return does, behind it the hidden registers of x hold the numbers of a loop that goes no further, if they did before or if it has run a loop over x |
| LoopReuse.OwnMade | src/sgs_proc.c:3005-3056 | keeping its own numbers, a numeric loop that nothing leaves and no number overflows makes all its rounds, whatever loops over the same variable it contains |
| LoopReuse.SharedMade | src/sgs_proc.c:3005-3056 | a numeric loop whose body surely runs another one over its variable makes one round, unless the next number overflows |
| LoopReuse.ReuseExactly | src/sgs_bcg.c:2809-2886 | if the last of those inner loops stands directly in the body and has constant bounds, a non-zero step and no overflow, the outer loop makes one round as compiled and leaves the inner loop's next number in the variable; that is as many rounds as it would make with its own numbers exactly if those are one at most |
| CutShort.CountCutShort | src/sgs_bcg.c:2809-2886 | a compiled function that returns 1 where its source, read with loops that keep their own numbers, returns 3 |
| Simulation.IfRuns | src/sgs_bcg.c:2603-2671 | the same for if/else |
| Simulation.ExitRuns | src/sgs_bcg.c:2953-3023 | break and continue reach the deferred code of the blocks being left and then their target |
| Bounds.ShapeS | src/sgs_bcg.c:2506-3029 | compiled statements only name registers below the counted maximum and existing constants, and only jump inside themselves or to an enclosing loop |
| Bytecode.EncodeDecode | src/sgs_int.h:379-394 | an instruction whose fields fit survives packing into a 32-bit word and reading back, negative jump distances included |
| Bytecode.EncodeDecodeAll | src/sgs_int.h:379-394 | the same for whole functions |
| ValueFacts.WordIs | src/sgs_int.h:269-394 | a word has its operation code, the place in the instruction list, in bits 0-5, and its fields in bits 6-13, 14-22 and 23-31, or 6-22 and 23-31 |
| ValueFacts.WrapIs | src/sgs_proc.c:1933-1944 | integer results are right modulo 2^64 and in range |
| ValueFacts.BumpRuns | src/sgs_proc.c:1933-1944 | `++` adds one and `--` takes one away, over the limits to the other end, what is no integer becomes null; the value of the postfix form is the old one |
| ValueFacts.BumpStep | src/sgs_proc.c:3121-3122 | the INC and DEC instructions do that to registers |
| ValueFacts.BumpsAdd | src/sgs_proc.c:1933-1944 | any sequence of them adds ups less downs, modulo 2^64 |
| ValueFacts.TestRuns | src/sgs_bcg.c:2603-2808 | null, false and 0 count as false in if and while, everything else as true |
| ValueFacts.TestEvals | src/sgs_bcg.c:1772-1845 | the same for the boolean operators, which evaluate to one of their operands; `??` asks for null |
| ValueFacts.TestAssigns | src/sgs_bcg.c:1772-1845 | the same for the assigning forms; a variable that nothing was assigned to is null |
| ValueFacts.TestStep | src/sgs_proc.c:2925-2948 | when the three conditional jumps jump, and where to |
| ValueFacts.SetStep | src/sgs_proc.c:2778-2782 | bit 8 of an operand selects a constant, else it is a register |
| SourceFacts.PlacesAreValues | src/sgs_bcg.c:1158-1240 | place semantics is ordinary value semantics if no right operand writes the variable its left operand stands for |
| SourceFacts.LateRead | src/sgs_bcg.c:1229-1232 | a program for which it is not |
| SourceFacts.AgreeExactly | src/sgs_bcg.c:1158-1240 | if the left operand means the same in both semantics, the operation does for every meaning of the operator exactly if the right operand does too and evaluating it leaves the left place with the value it had |
| SourceFacts.VariableAgreesExactly | src/sgs_bcg.c:1229-1232 | for a variable x on the left: exactly if evaluating the right operand leaves x with its old value; `x + (x = x)` is such a case |
| SourceFacts.OnlyAssigned | src/sgs_bcg.c:1242-1287 | an expression changes only the variables it assigns |
| SourceFacts.DefersRunLatestFirst | src/sgs_bcg.c:154-189 | however a block is left, exactly the deferred statements already passed in it run, once each, latest first |
| SourceFacts.NumForIsRounds | src/sgs_proc.c:3005-3056 | with a non-zero step and no overflow the body runs max(0, ceil((end - start) / step)) times unless it leaves, and sees start + k * step at entry k, whatever it assigned before |
| SourceFacts.NumLoopIsRounds | src/sgs_proc.c:3005-3056 | the same from any point of the loop on |
| ValueFacts.TripsCount | src/sgs_proc.c:3005-3056 | that number of rounds counts the k with start + k * step before the end |
| ValueFacts.ZeroStep | src/sgs_proc.c:3005-3056 | with step 0 a loop that nothing leaves runs for ever if the end is above the start, and not at all otherwise |
| ValueFacts.BoundsAre | src/sgs_proc.c:748-766 | as bounds true is 1, false and null are 0 |
| ValueFacts.LoopSteps | src/sgs_proc.c:3005-3056 | what the preparing and the repeating jump do to the four registers, and when they jump |
| SourceFacts.ExpandOk | src/sgs_bcg.c:229-248 | after expansion every numeric loop variable has three registers of its own |
| SourceFacts.ExpandPlace | src/sgs_bcg.c:229-248 | every variable moves up by three for each numeric loop variable before it |
| SourceFacts.ParameterPlace | src/sgs_bcg.c:229-248 | find_var answers k for variable k exactly if no variable before it is a numeric loop variable |
| CallProof.StacklessRefines | src/sgs_proc.c:2497-2752 | if a machine that calls recursively runs a function to its return, the loop reaches a return of the same frame with as many values, and returning leaves the same stack, frames and window; registers may differ only before a RETN 0 |
| CallReturns.LoopIsRecursion | src/sgs_proc.c:2497-2752 | the loop reaches a return of the frame it started in exactly if the recursive machine returns; both hand over as many values and leave the same stack, frames and window |
| CallReturns.LoopReturns | src/sgs_proc.c:2497-2752 | if the loop gets there in n steps, n + 1 units of fuel suffice for the recursive machine |
| CallProof.FastRefinesSlow | src/sgs_proc.c:2850-2916 | RET1's shortcut leaves the state that pushing the value and RETN 1 leave, for every number of expected values; before a RETN 0 both are the same once that has returned |
| CallProof.ResultsArrive | src/sgs_proc.c:2707-2752 | after vm_postcall the caller's frame is on top, its window is where it was and the stack ends under the called function; the registers the CALL names hold the results in order, cut off or padded with null, and everything else is as it was; in front of a RETN 0 nothing else has changed at all |
| CallFacts.NativeLeaves | src/sgs_proc.c:2563-2579 | of its arguments and what it pushed a native function leaves the last n if it returns n, and nothing if there are not so many or n is negative |
| CallFacts.NativeCall | src/sgs_proc.c:2950-2987 | the registers that the CALL names hold those values in order, nulls behind them, and nothing else on the stack has changed |
| CallFacts.NativePauses | src/sgs_ctx.c:526-552 | a native function pauses the run exactly if no native function is among the callers; those values are then on top of the stack |
| CallFacts.RefusedCall | src/sgs_proc.c:341-352 | with 200 calls open, or if it is no function, nothing is called and the registers are null |
| CallFacts.ScriptCall | src/sgs_proc.c:2595-2624 | what lies where on the stack when a script function starts: undeclared arguments in reverse, an unwanted `this`, and the window |
| CallFacts.FramesBounded | src/sgs_proc.c:341-352 | no run opens more than 200 calls |
| CallFacts.SimpleStep | src/sgs_proc.c:2772-2948 | every other instruction changes one register, branches, or pushes one value |
| CallFacts.LastReturn | src/sgs_proc.c:2850-2916 | the return that ends a run leaves its values on top |
| CallFacts.ResumeAborted | src/sgs_proc.c:3249-3265 | a run that was aborted while paused returns nothing when it is resumed |
| CallProof.StepValid | src/sgs_proc.c:2772-2948 | every instruction keeps the frames well-formed: windows on the stack and in order, waiting frames at their calls, aborted frames at their last RETN |
| CallProof.StepKept | src/sgs_proc.c:2772-2948 | an instruction that is no return changes frames below the running one only by aborting them, and pushes at most one |
| CallProof.CoroutineTransparent | src/sgs_ctx.c:526-552 | a run chopped wherever a native function pauses, the host taking what was yielded and resuming with an answer, has after every instruction the stack, frames and results of the run in which those functions just returned the answers |
| CallProof.YieldAnswered | src/sgs_proc.c:3249-3302 | one pause and resume is one native call that returns the answer |
| CallProof.AbortUnwinds | src/sgs_proc.c:2707-2752 | after an abort one step per frame returns with no values, and the stack is what it was below the call that started the run |
| CallProof.AbortMarks | src/sgs_ctx.c:1117-1133 | abort marks every frame of the run, and adds and removes none |
| CallProof.AbortStops | src/sgs_ctx.c:1117-1133 | a native frame and everything under it is left alone |
| CallProof.AbortedCall | src/sgs_ctx.c:1117-1133 | a native function that aborts leaves a running machine with all frames aborted and everything below the window as it was |
| CallVM.VM.StkTranspose | src/sgs_proc.c:646-654 | of the top values the first ones go to the top in order and the others below them, reversed |
| CallVM.VM.VarrReverse | src/sgs_proc.c:632-644 | reverses a stretch of the stack in place |
| CallVM.VM.StkInsertNull | src/sgs_proc.c:565-577 | a null between the top values and the rest |
| CallVM.VM.StkPushNulls | src/sgs_proc.c:542-549 | that many nulls on top |
| CallVM.VM.FstkClean | src/sgs_proc.c:579-598 | removes a stretch of the stack |
| CallVM.VM.StkDeltasize | src/sgs_proc.c:616-630 | drops values or pushes nulls |
| CallVM.VM.AssignResults | src/sgs_proc.c:2966-2987 | the first wanted results go to consecutive registers, missing ones are null, surplus ones are dropped |
| CallVM.VM.PushStackFrame | src/sgs_proc.c:341-436 | one more frame, refused at the limit |
| CallVM.VM.Arrange | src/sgs_proc.c:2595-2624 | the callee's window is `this` (or null) if wanted, the declared arguments padded with null, and the temporaries; below it surplus arguments, reversed, and an unwanted `this` |
| CallVM.VM.VmCall | src/sgs_proc.c:2497-2705 | script functions are entered and the loop is told to go on; native ones leave their valid results; what cannot be called leaves nothing |
| CallVM.VM.CallCFunc | src/sgs_proc.c:2563-2579 | an impossible number of results becomes none |
| CallVM.VM.VmPostCall | src/sgs_proc.c:2707-2752 | completes a return in the caller's frame |
| CallVM.VM.Ret1Fast | src/sgs_proc.c:2850-2893 | the value goes straight to the first expected register, null to the others |
| CallVM.VM.DoCallInstr | src/sgs_proc.c:2950-2987 | the CALL instruction, whichever way the call ends |
| CallVM.VM.ExecInstr | src/sgs_proc.c:2772-2948 | one pass of the loop is one step of the machine |
| CallVM.VM.VmExec | src/sgs_proc.c:2772-2948 | the loop is that many steps |
| CallVM.VM.PauseState | src/sgs_ctx.c:526-552 | pauses the innermost script frame; refused if paused already or if a native function is among the callers |
| CallVM.VM.Abort | src/sgs_ctx.c:1117-1133 | sends every script frame down to the next native one to its last RETN |
| CallVM.VM.ResumeState | src/sgs_proc.c:3249-3302 | gives the pushed values to the call that paused, or drops everything if the run was aborted; refused if not paused |
| CallLink.CompiledWindow | src/sgs_bcg.c:2152-2155 | for any number of arguments, with or without `this`, the window has the size the compiler counted, holds `this`, the arguments and nulls in that order, and every register of the compiled code lies inside it |
| CallLink.ArgumentsArriveExactly | src/sgs_bcg.c:229-248 | whatever a call passes, the compiled code finds every argument in its parameter's register and null in all others exactly if no parameter but the last one is a numeric loop variable |
| CallLink.SecondParameterLost | src/sgs_bcg.c:229-248 | a function for which it is not so: the code reads register 4, the argument lies in register 1 |
| CallLink.CallCorrect | src/sgs_proc.c:2595-2624 | under that condition calls of compiled functions are correct, for the functions and readings of CompileCorrect: the words that start to run in the window of the call do what the body does from the store that binds parameters to arguments |
| Collector.Shared.GCExecute | src/sgs_proc.c:4904-4995 | a collection leaves exactly the reachable objects, in order, with their references, count and list length agreeing; every other one is destructed once and freed once, all destructs first; reference counts are again the incoming references |
| Collector.Shared.FlipAndMark | src/sgs_proc.c:4909-4957 | after the colour flip and marking exactly the reachable objects have the current colour, cycles included |
| Collector.MarkedExactly | src/sgs_proc.c:4909-4957 | the objects that marking reached are exactly the reachable ones |
| Collector.Shared.MarkDo | src/sgs_proc.c:921-940 | marking goes through everything below an object that was not marked before |
| Collector.Shared.Sweep | src/sgs_proc.c:4959-4982 | keeps the marked objects and their references, and records the destructs before the frees |
| Collector.Shared.DestructAll | src/sgs_proc.c:4962-4971 | the first pass: garbage gives up its references, nothing is freed |
| Collector.Shared.FreeAll | src/sgs_proc.c:4973-4981 | the second pass unlinks and frees the rest |
| Collector.Shared.Recolor | src/sgs_proc.c:4983-4992 | without a sweep all objects get the current colour, so the next collection starts as it must |
| Collector.Shared.Release | src/sgs_proc.c:5634-5638 | one reference less; the object is destroyed exactly if it was the last one, its references are released in turn, and what is destroyed is destructed once and freed once after that, and nothing else is |
| Collector.Shared.Destroy | src/sgs_proc.c:108-130 | destructs and frees one object with all that only it held, each once and in that order, and leaves everything else |
| Collector.Shared.Create | src/sgs_proc.c:292-334 | a new object has the current colour, one reference and stands first in the list |
| Collector.Shared.Link | src/sgs_proc.c:5628-5632 | storing a reference keeps the counts exact |
| Collector.Shared.Unlink | src/sgs_proc.c:5634-5638 | giving up a reference leaves exactly the objects that a root or a cycle still holds, with their references, and destructs and frees every other one once |
| Collector.Shared.PushRoot | src/sgs_int.h:453-454 | copying a variable keeps the counts exact |
| Collector.Shared.PopRoot | src/sgs_int.h:455-456 | dropping a variable does the same |
| Collector.Survivors | src/sgs_proc.c:5634-5638 | what stays after such a release is exactly what a root or a cycle holds; garbage in cycles waits for a collection |
| ObjPool.Allocator.BinarySearch | src/sgs_proc.c:37-52 | a position with a block of this size if there is one, else that of the first larger one, or the end |
| ObjPool.Allocator.Alloc | src/sgs_proc.c:292-312 | serves a pooled block of exactly this size whenever there is one, else a new one, and no block twice |
| ObjPool.Allocator.Free | src/sgs_proc.c:55-106 | a freed block goes into the sorted pool; if it is full exactly one block is given back to the system; blocks over the limit are not pooled |
| ObjPool.Allocator.Pool | src/sgs_proc.c:78-104 | the pool stays sorted and without duplicates, and holds what it held, the new block, and not the one it replaced |
| ExprParser.ParseRight | src/sgs_fnt.c:371-705 | a list of operands and modelled operators, prefix and postfix `++` and `--` included, parses exactly if it is well-formed, and then to the one ordered tree that reads as the list: heavier operators above lighter ones, equal ones to the left, assignments to the right |
| ExprTable.ParseByTable | src/sgs_fnt.c:296-330 | with the precedence of all operators given as a table: of a list the parser makes exactly the tree that the table groups |
| ExprTable.TwoOperators | src/sgs_fnt.c:296-330 | in `a p b q c` the operand b goes to the operator that is tighter in the table; in one row to the left one, among assignments to the right one |
| ExprTable.OneOperand | src/sgs_fnt.c:296-330 | operators with one operand are tighter than all others |
| ExprParser.BumpThenOperator | src/sgs_fnt.c:409-447 | an operator right behind a leading `++` or `--` is taken as binary, and the list refused |
| ExprParser.BumpMinus | src/sgs_fnt.c:527-529 | so `++ - a` is refused, and `- ++ a` is not |
| ExprParser.ParseFlatten | src/sgs_fnt.c:371-705 | every ordered tree is what its list parses to |
| ExprParser.ParseSound | src/sgs_fnt.c:371-705 | what comes out is ordered and reads as the input |
| ExprParser.WellFormedParses | src/sgs_fnt.c:371-705 | every well-formed list parses |
| ExprParser.RootChosen | src/sgs_fnt.c:296-330 | the root of an ordered tree is the operator that the scan picks |
| ExprParser.HeaviestChosen | src/sgs_fnt.c:409-447 | the scan picks an operator that is at least as heavy as every other, the first such if it groups to the right or has one operand, else the last |
| ExprNodes.LevelExp | src/sgs_fnt.c:371-705 | cutting and relinking the node list in place succeeds exactly if the list parses, and leaves the nodes linked as that tree |
| ExprNodes.FindMpp | src/sgs_fnt.c:409-447 | the scan finds the most powerful part |
| ExprNodes.Detach | src/sgs_fnt.c:533-540 | taking the operator out leaves the list before it and the list behind it |
| ExprNodes.Join | src/sgs_fnt.c:574-575 | a new operator node above two trees |
| ExprNodes.SplitUnary | src/sgs_fnt.c:616-645 | the operand of a prefix operator becomes its child |
| ExprNodes.SplitPostfix | src/sgs_fnt.c:616-632 | what stands before a postfix `++` or `--` becomes its child |
| JsonProof.RoundTripSpaced | ext/sgsjson.c:37-338 | decoding what the encoder wrote, with any whitespace (section 2 of RFC 8259) around its tokens, gives the value back |
| JsonProof.RoundTrip | ext/sgsjson.c:366-467 | the same for the encoder's own output |
| JsonProof.TextDecodes | ext/sgsjson.c:37-338 | every JSON text, with any whitespace, is read as what it means: strings in any spelling (sections 7 of RFC 8259 and 3 of RFC 3629), keys too, of which the last value counts, numbers with fraction and exponent |
| JsonProof.WritesText | ext/sgsjson.c:366-467 | what the encoder writes is such a text for the value |
| JsonProof.Utf8Is | ext/sgsjson.c:118-170 | codes of four hexadecimal digits are turned into UTF-8 |
| JsonProof.SetAllIs | ext/sgsjson.c:318-320 | entries added one after the other leave every key once, where it came first, with its last value |
| JsonRefused.RoundTripExactly | ext/sgsjson.c:85-99 | of the values that are in range but may hold any strings, exactly those without control characters come back; for the others decoding fails |
| JsonRefused.LineBreakRefused | ext/sgsjson.c:85-99 | the string of one line break is written and not read back |
| JsonRefused.EscapeRefused | ext/sgsjson.c:105-175 | a backslash with anything behind it that is no escape is refused |
| JsonRefused.ArrayRefused | ext/sgsjson.c:297-323 | so is an array with a comma at the end, with a wrong bracket, or without one |
| JsonRefused.DictionaryRefused | ext/sgsjson.c:297-323 | the same for dictionaries |
| JsonRefused.KeyRefused | ext/sgsjson.c:182-190 | so is a key without a colon |
| JsonRefused.SecondRefused | ext/sgsjson.c:54-55 | and a text with something behind it |
| JsonProof.ValueParses | ext/sgsjson.c:37-338 | from any state that expects a value the decoder reads exactly the value that a text means |
| JsonProof.ScanNumeral | ext/sgsjson.c:198-260 | a number is read to its end, integers exactly |
| JsonCode.JsonParse | ext/sgsjson.c:37-362 | the loop over cursor, bracket stack and value stack computes the specified result for every text |
| JsonCode.ReadItem | ext/sgsjson.c:54-295 | one value, bracket or key |
| JsonCode.StepOver | ext/sgsjson.c:297-323 | behind a value: the comma, the closing bracket, and the cursor's steps back |
| JsonCode.ReadString | ext/sgsjson.c:85-180 | a string with its escapes, or failure |
| JsonCode.ReadNumber | ext/sgsjson.c:198-260 | a number, plain or with fraction and exponent |
| JsonCode.SkipSpace | ext/sgsjson.c:19-30 | skips exactly the whitespace |
| JsonCode.EncodeVar | ext/sgsjson.c:366-467 | appends the value's encoding and nothing else |
| JsonCode.EncodeString | ext/sgsjson.c:391-418 | quotes and backslashes are escaped, nothing else |
| Profiler.ProfilerAccounts | ext/sgs_prof.c:65-185 | in every run with a monotone clock the sampled frames are, after each event, the path from the first frame to the current one, and when nothing is open the time of every call path is at least the sum over the paths one call longer |
| Profiler.AccountsFromStart | ext/sgs_prof.c:65-185 | so it is for every run of a profiler that has just been started |
| ProfilerTime.TimeIsSpent | ext/sgs_prof.c:65-185 | in every run from the start the time of a call path, recorded and still running, is the sum of the intervals between events in which it was sampled; nothing is recorded for a pause |
| ProfilerTime.SampledIs | ext/sgs_prof.c:79-83 | after every event exactly the frames on the call stack are sampled, and none after a pause |
| ProfilerTime.HookSamples | ext/sgs_prof.c:79-83 | what the hook leaves are those frames |
| Profiler.NextInv | ext/sgs_prof.c:65-185 | every event keeps that invariant |
| Profiler.CommitTimeOf | ext/sgs_prof.c:117-157 | committing turns running time into recorded time, path by path |
| Profiler.ProfData.Hook | ext/sgs_prof.c:65-185 | one event: what is committed, what stays sampled, what starts |
| Profiler.ProfData.FindCut | ext/sgs_prof.c:89-115 | from which item on frames have been left |
| Profiler.ProfData.Remove | ext/sgs_prof.c:117-157 | frames that have been left are removed and their times committed, outermost first |
| Profiler.ProfData.AddFrames | ext/sgs_prof.c:159-174 | frames up to the target start to be timed |
| Profiler.ProfData.CommitTime | ext/sgs_prof.c:135-151 | adds to the entry of a call path or appends one |
| ThreadMap.ThreadObject.Put | ext/sgspproc.c:118-142 | the linked list is a map without duplicate keys, and this sets one key |
| ThreadMap.ThreadObject.Find | ext/sgspproc.c:106-116 | the item of a key, or none |
| ThreadMap.ThreadObject.GetValue | ext/sgspproc.c:308-336 | the key's value, or that there is none |
| ThreadMap.ThreadObject.SetIf | ext/sgspproc.c:359-401 | sets the key exactly if its value is the wanted one, else changes nothing and says why |
| ThreadMap.ThreadObject.Start | ext/sgspproc.c:238-256 | starts a thread exactly if none has been started, or the last one has ended and its handle was the creator's; so each object starts one thread and no other as long as no handle is the creator's |
| ThreadMap.ThreadObject.Finish | ext/sgspproc.c:175-197 | the thread's end is recorded and forgets no handle: only one that is the creator's makes another start possible |
| ThreadMap.NoLostUpdate | ext/sgspproc.c:308-401 | in every interleaving a counter advanced by get and set_if is its first value plus the number of successes |
| ThreadMap.Perform | ext/sgspproc.c:308-401 | each action done with the object's own methods is one step of that run |
| ThreadMap.PerformAll | ext/sgspproc.c:308-401 | any number of threads working on one object in any order: the counter in its list ends as its first value plus the number of successes |
| ThreadMap.TrySucceeds | ext/sgspproc.c:359-401 | an attempt fails exactly if another one has succeeded since the read |

## Left out

- Array, dictionary and map literals, the `if(...)` pseudo-function, expressions in parentheses
  with several parts, tests with several parts: they pass an output register down and would only
  add easy cases to the simulation.
- Globals, properties, indexing, metamethods, closures, classes, foreach, sync and race, error
  suppression, string concatenation with several parts, returning several values: they depend on
  objects and library code that are not part of this model.
- The numeric loop over real numbers, and the choice between the two loops at run time.
- FunctionProof.CompileCorrect: the operators' meaning is a parameter, so it says nothing about
  what `+` does to values; a deferred statement is a direct child of a block and contains no
  break, continue or return that leaves it; functions of more than 32767 instructions are out,
  because the jumps of the boolean operators have no range check; if each loop is to keep its own
  numbers (`Own`), functions with a numeric loop inside another one over the same variable are
  out, because for them it is false (`CutShort.CountCutShort`).
- FunctionProof.CompileComplete: the same.
- CallLink.CallCorrect: the same.
- Acceptance.CompilesExactly: longer functions, where jumps may be too long, and functions with
  more deferred statements that are never open together.
- LoopReuse.ReuseExactly: bodies with break, continue or return, and inner loops over the same
  variable that only some rounds run, or with bounds that are computed; what they do is said only
  by CompileCorrect with shared registers.
- CodeGen.FuncCtx.CompileNode: the generator stops at the first error; the C code sometimes goes
  on after it has reported one and discards the result at the end. Line numbers are not kept.
- CodeGen.FuncCtx.CompileBreaks: the C code stores a pending entry's loop in 16 bits; nesting
  loops more than 65535 deep is not modelled.
- CallProof.StacklessRefines: instructions other than calls and returns are any functions of the
  window; native functions are a list of outcomes (results, a pause, an abort) and do not call
  back into scripts.
- CallVM.VM.VmCall: calls of objects with a call method, closures, the hooks around calls, and the
  error messages.
- CallVM.VM.PushStackFrame: taking hold of closures, and the inherited suppression of errors.
- Reallocation of the value stack and the rebasing of pointers: positions are indices. Reference
  counts of values on the stack are not tracked there; the collector's model counts them as roots.
- Collector.Shared.GCExecute: an object's gcmark and destruct visit or release each outgoing
  reference once; the walkers over contexts, the registry and the like are a given list of roots;
  meta-objects and destructors that run scripts are not modelled.
- ObjPool.Allocator.Free: block contents, and blocks the system hands out for anything else.
- ExprParser.ParseRight: the operators `.`, `$` and `$=` (the last two merge their operands into
  one node), `!` between operands, calls and indexing inside expressions, and the error messages.
- JsonProof.RoundTrip: real numbers and integers of magnitude over 2^53, whose reading rounds;
  rounding itself is a parameter that is exact on smaller integers.
- JsonProof.TextDecodes: the value of a number with a fraction or an exponent is a parameter.
- JsonCode.ReadNumber: the value of a number with a fraction or an exponent is a parameter.
- JsonCode.EncodeVar: how a real number is printed is a parameter.
- JsonCode.JsonParse: the prototype argument that replaces dictionaries, and where in the text an
  error is reported.
- Profiler.ProfilerAccounts: several contexts at once, rounding of times, the other modes (the
  third does the same with memory), and printing.
- ThreadMap.NoLostUpdate: every operation holds the object's lock and is one step; waiting,
  serialization of functions, and a system that fails to create the thread are not modelled.
- The hash table, serializer, tokenizer, regular expressions, debugger, sockets, file system and
  command-line tools.

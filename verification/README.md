# Rayforce: models and proofs

A Dafny 4.11 model of the stateful and concurrent core of the Rayforce engine,
with its main correctness properties proved. `dafny verify dfyconfig.toml`
checks everything. Imperative code is modelled as classes, arrays and loops
and proved against a specification in functions; the properties are then
proved of that specification, for all inputs, runs and interleavings.

**Lambda compiler and stack VM** (`src/lang/compile.c`, `src/lang/eval.c`).
`Lang` has the values and parsed forms, `Bytecode` the instructions as bytes.
`CodeGen` says what code `ray_compile` is to emit, and the class in `Compiler`
emits it byte by byte, patching jumps in place. `Machine` is `vm_exec` as a
step function over its operand, return and trap stacks; `Reference` is an
independent big-step evaluator by names and recursion. `Scope`, `SimDefs`,
`SimExec` and `Simulation` show that compiled code does what the evaluator
says, and `Correctness` draws the conclusions in both directions, with
unbounded stacks and with the real ones. `StackTypes`, `StackTyping` and
`StackCode` give every compiled lambda a static table of operand heights and
armed traps; `StackSafety` and `Discipline` show that every run keeps to it.
`Ledger`, `Vm` and `VmRuns` are `vm_exec` in its own form, three arrays updated
in place, with an account of the references it has taken; `Nesting` covers
the invocations that `try` handlers start, `Effects` what each instruction pushes,
raises or loses, and `Exhaustion` two programs that run out of stack. `Laws` says
what the forms mean to those who write them, `Refusals` which lambdas are not
compiled.

**Thread pool** (`src/core/pool.c`). `Pool` makes each atomic operation of the
main thread and of each worker one step; `PoolProof` has the invariant of all
interleavings and what follows from it; `PoolRuns` says what callers see, with the
numbers written out, and that every dispatch can be finished.

**Windows completion reactor** (`src/core/iocp_win.c`). `Iocp` has the selector
table, the linked zombie list and the containers, next to what the kernel, the
completion port and the current batch still hold; `Reactor` is the same on values,
event by event, with the progress that can be made, and `Sweep` says which slots of the
table teardown leaves taken, given what the close callbacks do.

**IPC** (`src/core/ipc.c`, `src/core/poll.c`, `src/core/epoll.c`). `Framing` is
the byte stream as a parser and `Connection` the receive state machine over a
reused buffer; `Deferral` the deferred replies of nested frames; `Codec` the
delta and run-length codec.

**Timers** (`src/core/timer.c`). `TimerHeap`: what each timer will do, and the
array heap that drives it.

**Arithmetic**. `Rand` (`src/core/rand.c`), `Calendar` (`src/lang/cal.h`), `Swar`
and `NumParse` (`src/core/numparse.c`), the latter two on 64-bit words with their
borrows and carries.

**Namespaces and brackets**. `Namespace` and `Environment` (`src/lang/env.c`),
`Brackets` (`src/app/term.c`).

## Hypotheses

- A `self` call passes as many operands as the lambda has parameters; the VM
  relies on it (`src/lang/eval.c:2130`) and the compiler does not check it.
- A constant pool has at most 65536 entries; its index is two bytes wide
  (`src/lang/compile.c:122-126`).
- The number of tasks of a dispatch fits 32 bits (`src/core/pool.c:255`).
- Parsed forms contain no error objects; `compile_expr` emits nothing for one
  (`src/lang/compile.c:549`).
- Timer callbacks do not touch the heap; firing has positive intervals and a
  clock that stands still while it goes on.
- The quotient `offset / 365.2425` is off by at most a millionth of a
  year, and 32-bit sums wrap (`src/lang/cal.h:51-74`).

## Where the code departs from what one would expect

- A request that defers, is answered while still running, and then lets a nested
  request defer is answered a second time: the nested defer overwrites
  `defer_seq` (`src/core/ipc.c:2396`). `Deferral.ExactlyOnceIffClean` states
  exactly when this happens.
- `ray_pool_dispatch_n` drops the tasks beyond the capacity of the ring
  (`src/core/pool.c:383`); `Pool.SinglesPartition` says so.
- A compiled `try` gives its handler the error object of a failed operation,
  where the tree walker gives 0 (`src/lang/eval.c:330`, `src/lang/eval.c:2355-2360`).
- A call head that names a builtin is bound while compiling, even if a local of
  that name shadows it (`src/lang/compile.c:458`).
- A compiled `do` pushes no scope, unlike the tree walker's
  (`src/lang/compile.c:373-379`): locals belong to the whole lambda.
- `src/core/timer.h:66` speaks of a one-shot timer with `num == 0`; the code
  treats 0 as for ever (`src/core/timer.c:207`).
- `date_to_ymd` yields no valid date before 0001-01-01, nor in the last nine days
  of the 32-bit range (`src/lang/cal.h:52-57`): there it ends up in June 5879612
  with a negative day. `Calendar.DateToYmd` is exact about both ends.
- The bracket matcher finds no partner for a closing bracket in a buffer over
  4096 bytes (`src/app/term.c:813`), though it does for the opening one:
  `Brackets.ThereAndBack`, with `Brackets.WideThereAndBack` for every such length.
- A push that overflows the operand stack loses its reference
  (`src/lang/eval.c:1736`). `VmRuns.CallLambda` and `Effects.RunLoses` state exactly
  when, and `Exhaustion.WideLosesOne` is a program that does it.
- An error object is an ordinary value until it is the result of an operation
  that may fail: a lambda may return one to a caller in the same invocation
  (`src/lang/eval.c:2228`), but reading a global that holds one raises it
  (`src/lang/eval.c:1817`), and so does a `try` handler that answers with one
  (`src/lang/eval.c:2261`).
- A trap that resumes on a full operand stack loses its error and raises the
  limit error instead, in the next `try` out (`src/lang/eval.c:1736`):
  `Discipline.CaughtAs`.
- A selector that a close callback registers during teardown, in a slot already
  passed, is never torn down (`src/core/iocp_win.c:219-238`). `Sweep.LeftIsBehind`
  and `Iocp.IocpPoll.Destroy` state exactly when and which, `Sweep.OpensLeaves`
  when no callback deregisters, and `Iocp.LeakedByCallback` is a case of it.

## Model

| member | source | states |
|---|---|---|
| Correctness.CompilerCorrect | src/lang/compile.c:592-643 | Compiler correctness, both ways: the bytecode of a lambda stops with the object `r`, a result or an error object, and world `w1` (globals and pending raise value) if and only if the big-step evaluator answers that, for every program, host, operands and starting world, error objects among them |
| Correctness.Forward | src/lang/eval.c:1655-1805 | If the evaluator answers, the executor stops with that answer; if the evaluator is still out of call depth `k`, the executor is still running after at least `k - 1` steps, so divergence is preserved too |
| Correctness.NeverStuck | src/lang/eval.c:1735-1805 | No run of any length leaves the code, pops into the locals of a frame, or uses a constant or slot that is not there |
| Correctness.HaltsOnce | src/lang/eval.c:1655-1735 | A run has one end: two runs of one machine that have both ended are in the same state |
| Correctness.RunLimits | src/lang/eval.c:1735-1740 | With the real stack sizes the executor takes the very steps of an unbounded one until a capacity check fires, and that a check has fired is never forgotten |
| Correctness.ExecutorCorrect | src/lang/eval.c:1655-1740 | With the real stacks: a capacity check has fired, or the executor is still running, or it has stopped with an answer of the evaluator |
| Correctness.ExecutorComplete | src/lang/eval.c:1655-1740 | With the real stacks: whenever the evaluator answers, the executor gets there, unless a capacity check fires |
| Bytecode.FetchIndexed | src/lang/compile.c:118-127 | What the compiler emits for a constant index, narrow below 256 and wide above, is decoded by the executor as that index |
| Bytecode.FetchJump | src/lang/compile.c:179-193 | A patched forward offset, split into two bytes, is decoded as that signed offset |
| CodeGen.Find | src/lang/compile.c:162-166 | A name denotes the last slot of that name, or none |
| CodeGen.ConstIndex | src/lang/compile.c:130-141 | The pool index of a value is the first place it occurs at, or the end of the pool |
| CodeGen.WithConst | src/lang/compile.c:130-159 | Adding a constant keeps all earlier indices valid and leaves the value at the index handed out |
| CodeGen.IfLayout | src/lang/compile.c:348-371 | The five parts of a compiled `if` lie back to back, each jump carrying exactly the distance to its target |
| CodeGen.TryLayout | src/lang/compile.c:390-414 | The parts of a compiled `try` lie back to back: the trap names the handler, the jump names the end |
| Refusals.CompiledIff | src/lang/compile.c:592-643 | A lambda is compiled if and only if no `let` is of a reserved name, no `do` is empty, no call has more than 64 operands, its parameters, other locals and `try` slots are at most 256, and its jumps fit 16 bits; its frame then has exactly those slots |
| Refusals.GenMeets | src/lang/compile.c:547-589 | The same of every expression in any state of the compiler |
| Scope.GenGrows | src/lang/compile.c:162-176 | Compiling any expression only appends to pool and locals, never shadows a name that already has a slot, and the names with slots are exactly those the source has declared so far |
| Scope.FrameStore | src/lang/eval.c:1784-1791 | Storing into the slot of a name assigns that variable and no other |
| Scope.BindFrame | src/lang/eval.c:1723-1728 | The operands of a call, laid into the first slots, are the parameters bound by name, the last of equal names winning |
| Simulation.SimExpr | src/lang/compile.c:547-589 | Preservation of meaning, expression by expression: in any frame, height, call depth and number of armed traps the emitted code simulates the evaluator, leaving the final slots, globals and one more operand, or unwinding, or returning |
| Simulation.SimName | src/lang/compile.c:553-570 | A name reads its slot, 0 if the slot was never assigned, else the global, which raises if it is an error object, else a name error |
| Simulation.SimSet | src/lang/compile.c:302-318 | `set` stores the value globally and leaves it as the result; a reserved name raises, and so does a new name when the table of globals is full |
| Simulation.SimLet | src/lang/compile.c:320-345 | `let` stores the value in the one slot of its name and leaves it as the result |
| Simulation.SimIf | src/lang/compile.c:348-371 | `if` runs exactly the branch the truth of its condition selects |
| Simulation.SimTry | src/lang/compile.c:390-414 | `try` gives the value of its body; if the body fails, the handler is evaluated with the variables the body left, and applied to the error; an answer that is an error object is raised again |
| Simulation.SimCatch | src/lang/eval.c:2326-2377 | From an error anywhere below the body the handler runs in the frame of the `try`, above the operands that were there, with the error in its hidden slot |
| Simulation.CatchUnwinds | src/lang/eval.c:2326-2377 | Unwinding to a trap of this frame restores function, frame pointer, return depth and height exactly, keeps the locals as the body left them, and clears the pending raise value |
| Simulation.SimNested | src/lang/eval.c:2253-2264 | A handler that is a compiled lambda runs in an invocation of its own, whose result is taken over by the one that waits, as an error if it is an error object |
| Simulation.SimReturn | src/lang/compile.c:416-432 | `return` anywhere, also inside nested `try` bodies, ends the lambda with its value and leaves the caller's traps armed |
| Simulation.SimSelfCall | src/lang/compile.c:435-447 | A `self` call evaluates its operands right to left and means a fresh call of the running lambda |
| Simulation.SimCall | src/lang/compile.c:487-544 | A call evaluates head, then operands right to left, and passes them leftmost first, whichever call instruction was selected |
| Simulation.SimBody | src/lang/compile.c:608-614 | A sequence has the value of its last expression; the earlier values are gone from the stack |
| Simulation.SimDeliver | src/lang/eval.c:1817-1818 | What an operation that may fail has returned is pushed, or raised if it is an error object, just as the evaluator has it |
| Reference.IdentityRaises | src/lang/eval.c:2253-2264 | A handler that gives back the error object it was given fails with that error |
| Laws.HandlerSees | src/lang/eval.c:2347-2363 | What a handler of one operand sees when the body of a `try` fails: the raised value that is pending, else the error object of the failed operation, else 0; when the body does not fail it is not called |
| Laws.RaisedIsCaught | src/lang/eval.c:2347-2363 | `(try (raise v) (fn [s] s))` is `v` |
| Laws.ErrorIsCaught | src/lang/eval.c:2347-2363 | A builtin that fails with nothing pending: its error object reaches the handler |
| Laws.UnboundIsZero | src/lang/eval.c:2347-2363 | An unbound name fails without an error object, and the handler gets 0 |
| Laws.BuiltinHandlerIsAsked | src/lang/eval.c:2253-2264 | A handler that is a builtin of one operand is asked with just that value |
| Laws.PlainHandlerIsTheAnswer | src/lang/eval.c:2253-2264 | A handler that cannot be called is the answer itself |
| Laws.Conditions | src/lang/internal.h:340-356 | Null, false, 0, the null integer and the objects that count as false choose the second branch of an `if`, everything else the first |
| Laws.SetThenName | src/lang/eval.c:1834-1862 | A global reads as the value it was set to and no other global changes; a reserved name, and the 8193rd, are refused and change nothing |
| Laws.LetThenName | src/lang/compile.c:320-345 | A local reads as the value it was given, and globals are left alone |
| Laws.SkippedLetIsZero | src/lang/compile.c:320-345 | A `let` that is not reached declares its name all the same, which then reads as 0 |
| Laws.ErrorGlobalRaises | src/lang/eval.c:1807-1833 | Reading a global that holds an error object fails with that error |
| Laws.ReturnLeaves | src/lang/compile.c:416-432 | Nothing behind a `return` is evaluated and no `try` around it takes part |
| Laws.ParameterIsOperand | src/lang/eval.c:1987-2047 | A lambda that is its i-th parameter gives back the i-th operand as written, for any number of parameters |
| Laws.WrongCountFails | src/lang/eval.c:1987-2047 | A lambda called with another number of operands than it has parameters fails and does not run |
| Laws.SelfIsCalled | src/lang/eval.c:2116-2148 | `self` is a call of the running lambda on the operands as written |
| Laws.BuiltinCalled | src/lang/compile.c:487-544 | A builtin known at compile time is asked through the instruction of its kind when the number of operands fits; a wrong number for a unary or binary one is refused |
| Laws.BoundHeadRightToLeft | src/lang/compile.c:487-498 | A head that named a builtin at compile time calls it whatever the name is bound to now, and operands are evaluated right to left |
| Simulation.SimInvoke | src/lang/eval.c:1987-2115 | A frame entered with operands runs to the answer the evaluator gives for a call of the lambda, and the caller's frame is untouched below it |
| Nesting.RunUnder | src/lang/eval.c:2253-2264 | An invocation runs the same whether or not another waits below it: the waiting one is untouched until the last step, and then receives the result, raising it if it is an error object |
| Nesting.UnwindUnder | src/lang/eval.c:2326-2402 | An error that no trap of the nested invocation catches is raised in the waiting one as the error object that call returned |
| StackCode.GenTyped | src/lang/compile.c:547-589 | Stack discipline, statically: every compiled expression nets exactly one operand and leaves the armed traps as they were, and every jump in it lands on an instruction of its own code |
| StackCode.ArgsTyped | src/lang/compile.c:443-444 | Operands net one each |
| StackCode.BodyTyped | src/lang/compile.c:608-614 | A body nets one operand however long it is |
| StackCode.LambdaTyped | src/lang/compile.c:592-615 | Every compiled lambda has a table of heights and armed traps, one entry for each reachable instruction, consistent at every jump, join and handler |
| StackTyping.IfBlock | src/lang/compile.c:348-371 | Both arms of an `if` start and join at equal heights |
| StackTyping.TryBlock | src/lang/compile.c:390-414 | Both exits of a `try` join at the same height, and its handler starts one operand above the height saved at the trap |
| StackTyping.ReturnBlock | src/lang/compile.c:427-431 | A `return` drops exactly the traps armed around it before it returns |
| StackTypes.Append | src/lang/compile.c:592-615 | Tables of adjoining code with equal state at the seam are a table of both |
| StackSafety.ApplyDisciplined | src/lang/eval.c:1743-2276 | Every instruction keeps the discipline of all frames, traps and suspended invocations, with real capacities or without |
| StackSafety.UnwindDisciplined | src/lang/eval.c:2326-2377 | So does raising an error, wherever it is caught |
| StackSafety.RunDisciplined | src/lang/eval.c:1655-2402 | And so does every run |
| StackSafety.TopTrap | src/lang/eval.c:2232-2252 | The innermost armed trap resumes at a return depth and a height that still exist; one that is not of the running frame lies wholly below it, in a caller |
| Discipline.SafeRuns | src/lang/eval.c:1735-1805 | Every state of every run from a call is disciplined, for any capacities and any host, also after a capacity check has been caught |
| Discipline.NeverStuckEver | src/lang/eval.c:1735-1805 | Hence no state of any run is stuck and no operand stack is below the locals of its frame |
| Discipline.ReturnsDisarmed | src/lang/eval.c:2187-2230 | When a return is executed, every trap still armed belongs to a caller; at the outermost frame there is none |
| Discipline.FailingStepResumes | src/lang/eval.c:2326-2377 | When the instruction at any reachable state raises an error, the next state has resumed the innermost live `try` that has room for the error, in this invocation or one that waits for it, with exactly the operands, frame pointer, return depth, function and locals count saved at its trap, the error on top and the world as it was when the error got there; without such a `try` the run has ended in the error |
| Discipline.CaughtAs | src/lang/eval.c:1736-1736 | The error that arrives is the one that was raised and nothing is lost on the way, unless the innermost live trap resumes on a full operand stack: then what arrives is the limit error that this push raises in the frame of that trap |
| Discipline.TrapSuspended | src/lang/eval.c:2326-2346 | What a trap goes back to is a frame in front of its handler that waits for just one operand, the error, whichever caller the trap belongs to |
| Discipline.RaisedIn | src/lang/eval.c:1743-2264 | An instruction raises in its own frame with just its operands taken off; only a return may raise elsewhere, in the invocation that waits |
| Discipline.InnermostTryResumes | src/lang/eval.c:2326-2377 | The same of any error raised at an instruction boundary, under any depth of calls |
| Effects.EffectSettles | src/lang/eval.c:1743-2276 | Every instruction comes to a push, an error or neither, as a table of conditions says; one that neither pushes nor raises loses nothing |
| Effects.UnwindLoses | src/lang/eval.c:2326-2377 | Raising an error loses a reference if and only if the innermost live trap resumes on a full operand stack |
| Effects.StepLoses | src/lang/eval.c:1736-1736 | An instruction loses a reference if and only if it pushes, its value or the error it raises, onto a full operand stack |
| Effects.RunLoses | src/lang/eval.c:1736-1736 | A run loses no reference if and only if none of its pushes overflows |
| Exhaustion.WideLosesOne | src/lang/eval.c:1736-1736 | A program whose recursion fills the operand stack: the push that overflows loses exactly its one reference |
| Exhaustion.DeepLosesNothing | src/lang/eval.c:2122-2124 | A program that recurses without operands: the return stack overflows, and nothing is lost |
| Compiler.Compile | src/lang/compile.c:592-643 | The imperative compiler yields the code, pool, frame size and arity of the specification, and gives up exactly when the specification refuses |
| Compiler.CompilerState.CompileExpr | src/lang/compile.c:547-589 | Appends exactly the specified code of the expression, or sets `error` exactly when there is none; `trap_depth` is restored and an earlier error is never lost |
| Compiler.CompilerState.CompileLet | src/lang/compile.c:320-345 | Likewise for `let`: reserved names and a full table of locals are errors |
| Compiler.CompilerState.CompileIf | src/lang/compile.c:348-371 | Likewise for `if`: two jumps emitted blank and patched in place, an error if either reaches past 32767 bytes |
| Compiler.CompilerState.CompileThen | src/lang/compile.c:350-356 | The first branch of an `if` behind its patched jump, and the blank jump over the second |
| Compiler.CompilerState.CompileTry | src/lang/compile.c:390-414 | Likewise for `try`, with its hidden local |
| Compiler.CompilerState.CompileGuarded | src/lang/compile.c:395-401 | The guarded body, one trap deeper, with its trap patched to the handler |
| Compiler.CompilerState.CompileCall | src/lang/compile.c:487-544 | Likewise for a call: builtin heads become constants, and the instruction is chosen by kind and operand count |
| Compiler.CompilerState.CompileArgs | src/lang/compile.c:487-498 | Operands are compiled right to left |
| Compiler.CompilerState.CompileBody | src/lang/compile.c:608-613 | A sequence, with a pop between its parts |
| Compiler.CompilerState.EmitReturn | src/lang/compile.c:427-431 | One trap end for each enclosing `try` body, then the return |
| Compiler.CompilerState.EmitIndexed | src/lang/compile.c:308-317 | The narrow form below 256, else the wide form, high byte first |
| Compiler.CompilerState.AddConstant | src/lang/compile.c:130-159 | The scan finds the first equal constant or appends |
| Compiler.CompilerState.FindLocal | src/lang/compile.c:162-166 | The backward scan finds the last slot of the name, or -1 |
| Compiler.CompilerState.AddLocal | src/lang/compile.c:168-176 | A new slot below 256, else -1 with nothing changed; `max_locals` keeps up |
| Compiler.CompilerState.PatchJump | src/lang/compile.c:187-193 | Exactly the two offset bytes change; too far a jump changes none and is an error |
| Vm.Executor.constructor | src/lang/eval.c:1716-1728 | On entry the operands are the first slots, the other locals unset, and one reference each to the function and the operands has been taken |
| Vm.Executor.StepOnce | src/lang/eval.c:1735-1740 | One instruction on the arrays is one step of the machine, and the ledger balances: every reference taken is in a slot, a return frame, a trap or the running function |
| Vm.Executor.Cleanup | src/lang/eval.c:2326-2402 | Error cleanup releases everything above the trap, or everything there is, exactly once, loses exactly the error values whose pushes overflow, and resumes or reports the very error the machine does |
| Vm.Executor.TakeError | src/lang/eval.c:2347-2363 | The handler owns the pending raise value, else the error object, else a fresh 0; what it does not get is released |
| Vm.Executor.GiveUp | src/lang/eval.c:2379-2402 | An uncaught error leaves no reference but the one to the error and those lost before, which are exactly the ones the machine has lost |
| Vm.Executor.PushRef | src/lang/eval.c:1736-1736 | A push stores the reference; exactly when the stack is full it loses it and unwinds |
| Vm.Executor.DeliverRef | src/lang/eval.c:1817-1818 | What an operation that may fail has returned is pushed, or raised if it is an error object; the reference goes along |
| Vm.Executor.OpLoadConst | src/lang/eval.c:1743-1759 | Pushes the constant with a reference of its own |
| Vm.Executor.OpLoadEnv | src/lang/eval.c:1760-1783 | Pushes the slot, or 0 if it is unset |
| Vm.Executor.OpStoreEnv | src/lang/eval.c:1784-1791 | Moves the operand into the slot and releases what was there |
| Vm.Executor.OpPop | src/lang/eval.c:1792-1799 | Drops and releases an operand, but never a local |
| Vm.Executor.OpDup | src/lang/eval.c:1800-1806 | Pushes the top once more, with a reference of its own |
| Vm.Executor.OpResolve | src/lang/eval.c:1807-1833 | Pushes the global, raises it if it is an error object, or raises a name error |
| Vm.Executor.OpStoreGlobal | src/lang/eval.c:1834-1862 | Binds the global and keeps the value; a reserved name or a full table releases it and raises |
| Vm.Executor.OpJmpF | src/lang/eval.c:1871-1880 | Pops and releases the condition and jumps when it is not true |
| Vm.Executor.OpCallHost | src/lang/eval.c:1881-1986 | The operands arrive leftmost first, are released after the call, and the result is pushed or raised |
| Vm.Executor.OpCallF | src/lang/eval.c:1987-2115 | A compiled callee takes over the running context, any other is asked; every refusal releases callee and operands |
| Vm.Executor.CallCompiled | src/lang/eval.c:1987-2047 | The stack checks come first, then the arity check, and only then does anything change |
| Vm.Executor.OpCallS | src/lang/eval.c:2116-2148 | The operands are reversed in place into the slots of the new frame and no reference changes hands |
| Vm.Executor.ReverseTop | src/lang/eval.c:2134-2139 | The in-place swap loop reverses exactly the topmost slots |
| Vm.Executor.OpRet | src/lang/eval.c:2187-2230 | The frame is released, the caller restored, and the result passed on |
| Vm.Executor.OpTrap | src/lang/eval.c:2232-2244 | Saves handler, heights, frame and function, which it retains; a seventeenth trap overflows |
| Vm.Executor.OpTrapEnd | src/lang/eval.c:2245-2252 | Drops the innermost trap and the reference it held |
| Vm.Executor.OpTryH | src/lang/eval.c:2253-2264 | A callable handler is called with the error, a lambda in an executor of its own; any other value is the result, raised if it is an error object |
| Vm.Executor.Answer | src/lang/eval.c:2258-2263 | When the handler has ended its references go back and its result is pushed, or raised if it is an error object |
| VmRuns.Execute | src/lang/eval.c:1735-1740 | The dispatch loop follows the machine step for step, from a disciplined state to the end of the invocation or the next handler |
| VmRuns.RunHandler | src/lang/eval.c:2253-2264 | A handler run in a nested executor is the machine with that invocation on top, and its answer is the machine's next state |
| VmRuns.RunThrough | src/lang/eval.c:1655-2402 | An invocation, nested handlers included, ends exactly as the machine does, with the ledger settled |
| VmRuns.CallLambda | src/lang/eval.c:1593-1608 | A call of a compiled lambda: a wrong operand count is an arity error; otherwise it ends exactly if the machine does, and as it does, owning the reference to its result and those lost by pushes: just its result if and only if no push has overflowed. When no capacity check has fired, it has ended as the evaluator says |
| VmRuns.SaneWhenDisciplined | src/lang/eval.c:1735-1805 | What each instruction takes for granted without checking holds in every disciplined state |
| PoolProof.ExactlyOnce | src/core/pool.c:61-115 | In every interleaving of any number of dispatches and ring growths, once the main thread is between dispatches each element of each job has been passed to its function exactly once, and nothing else has |
| PoolProof.NeverTwice | src/core/pool.c:61-115 | At no moment has any element been passed twice |
| PoolProof.BarrierHolds | src/core/pool.c:335-347 | A dispatch returns only when every ticket is claimed and finished; a thread about to read its task finds the entry written for its own ticket; no two threads hold one ticket |
| PoolProof.AdmissionHolds | src/core/pool.c:91-96 | No more workers than are active ever claim tasks, and `pending` is never negative |
| PoolProof.SpinIsServed | src/core/pool.c:335-347 | While the main thread spins, some thread holds a ticket and can move on |
| PoolProof.StepInv | src/core/pool.c:61-115 | Every atomic step of every thread keeps the invariant on tickets, ring, barrier, jobs, calls and admission |
| PoolProof.RunInv | src/core/pool.c:246-347 | So does every run |
| PoolProof.DispatchedOnce | src/core/pool.c:364-396 | Between dispatches each element of each dispatch so far has been passed exactly once; of a dispatch of `n` single tasks that is all `n` if and only if they fit the ring it finds |
| PoolProof.JobsAreDispatches | src/core/pool.c:246-303 | The jobs of a run are exactly its dispatches, in order, each with all its elements or, for single tasks, as many as the ring has slots once it has been resized |
| PoolRuns.NothingDropped | src/core/pool.c:364-396 | Between dispatches: each of the first 65536 single tasks of a dispatch that could grow the ring has been passed exactly once and nothing else, each of up to 1024 also if it could not, and each element of an element dispatch in any case |
| PoolRuns.GrowsAsNeeded | src/core/pool.c:262-274 | The ring doubles until it holds the tasks or has 65536 slots, and not once more |
| PoolRuns.RingSizes | src/core/pool.c:262-274 | In every run the ring has 1024, 2048, and so on up to 65536 slots, so that the mask of the source is the remainder |
| PoolRuns.TaskSizes | src/core/pool.c:250-298 | Elements are cut into tasks of 8192 while the ring has room, and otherwise into as many tasks as it has slots, none larger than need be |
| PoolRuns.EachDispatchWakesAll | src/core/pool.c:312-316 | Between dispatches, the wake-ups taken by workers and those still waiting are one for each active worker and dispatch |
| PoolRuns.AdmittedIffRoom | src/core/pool.c:91-96 | A woken worker is let into the claim loop if and only if it has counted fewer than the active number of others |
| PoolRuns.DispatchesCanFinish | src/core/pool.c:318-347 | From every state of every run the dispatch under way can be brought to its end by threads that are free to move |
| PoolProof.ClaimTickets | src/core/pool.c:61-73 | A successful compare-and-swap makes the ticket at the cursor that thread's, changes no other ticket, and claimed tickets stay apart from free ones |
| PoolProof.HeldInWindow | src/core/pool.c:98-110 | A ticket in a thread's hands belongs to the published window and to that thread, and its ring slot holds the entry planned for it |
| PoolProof.MainPublishes | src/core/pool.c:300-303 | Publishing the window, `pending` set and the ring filled before, keeps the whole invariant |
| Pool.TasksPartition | src/core/pool.c:250-298 | However many elements and however small the ring, also after the clamp, the tasks contain every element exactly once |
| Pool.SinglesPartition | src/core/pool.c:364-396 | The single-element tasks contain every index exactly once if and only if they fit the ring; the rest are dropped |
| Pool.SlotsApart | src/core/pool.c:285-293 | Two tickets of one window never share a ring slot |
| Iocp.IocpPoll.Run | src/core/iocp_win.c:655-818 | After every sequence of registrations, probes, completions, batches and deregistrations the table, the kernel, the port, the batch, the zombie list and the allocated and freed containers are exactly those the specification of the events gives, and the container invariant holds: a probe is in flight exactly when a completion names the container |
| Reactor.ProbeEnds | src/core/iocp_win.c:747-777 | A completion that is posted, taken off the port and processed ends its probe: no completion names the container any more, and it is freed if it was a zombie |
| Reactor.BatchEnds | src/core/iocp_win.c:753-777 | Processing a batch frees the zombies among its containers and no others |
| Reactor.BecomesZombie | src/core/iocp_win.c:369-412 | A selector registered, armed and torn down while its probe is out is a zombie |
| Reactor.ZombieIsFreed | src/core/iocp_win.c:747-777 | and is freed once its completion has come |
| Reactor.PatienceDrains | src/core/iocp_win.c:247-275 | As many waits as there are completions outstanding, each of which sees one posted and takes one, leave no zombie |
| Reactor.TornDownOwes | src/core/iocp_win.c:369-412 | A teardown, whatever happens in it, leaves as many completions outstanding as there were |
| Reactor.RunLater | src/core/iocp_win.c:655-818 | What a run of events has made of the reactor does not depend on the selectors registered after it |
| Iocp.IocpPoll.ZombieListIsExact | src/core/iocp_win.c:359-412 | At rest the zombie list is exactly the containers that left the table while a completion names them, and no completion names freed memory |
| Iocp.IocpPoll.ZombieRemove | src/core/iocp_win.c:360-367 | Unlinking takes out exactly the one element, wherever it is, and is a no-op when it is absent |
| Iocp.IocpPoll.RegisterSelector | src/core/iocp_win.c:291-357 | A new container with nothing in flight goes into the first free slot or a new one |
| Iocp.IocpPoll.ArmProbe | src/core/iocp_win.c:539-551 | A probe is given to the kernel only for a container that has none in flight |
| Iocp.IocpPoll.KernelCompletes | src/core/iocp_win.c:740-750 | A completion the kernel owes moves to the end of the port |
| Iocp.IocpPoll.DequeueBatch | src/core/iocp_win.c:747-750 | The next packets of the port, in order and as many as there is room for, become the batch |
| Iocp.IocpPoll.ProcessEntry | src/core/iocp_win.c:753-777 | A completion ends the probe; a zombie is unlinked and freed by it, any other container is not |
| Iocp.IocpPoll.DeregisterSelector | src/core/iocp_win.c:369-412 | The selector leaves the table before its close callback, which may register and deregister others while completions are posted; the slots taken afterwards are those the specification says, nothing new is allocated when nothing is registered, no container is lost, none is freed while named |
| Iocp.IocpPoll.Finish | src/core/iocp_win.c:405-411 | The container is freed, or becomes a zombie if a completion still names it |
| Iocp.IocpPoll.Destroy | src/core/iocp_win.c:200-287 | Every container found at the start is freed, or leaked while a completion names it; all of them are freed if the drain waits as often as completions are outstanding. The only others left, none of them named, are the selectors in the slots that close callbacks took behind the sweep, so that an unnamed container is left if and only if there is such a slot |
| Sweep.LeftIsBehind | src/core/iocp_win.c:219-238 | Whatever close callbacks register and deregister, at any depth: a slot is taken when the sweep is over if and only if it was taken at or behind the sweep and has not been left since |
| Sweep.OpensLeaves | src/core/iocp_win.c:219-238 | When close callbacks deregister nothing, something is left if and only if the callback of a selector in the table registers something |
| Sweep.QuietLeavesNothing | src/core/iocp_win.c:219-238 | Nothing is left unless a close callback of a selector in the table, or one nested in it, registers something |
| Sweep.OpensHappened | src/core/iocp_win.c:291-299 | The first selector registered while a slot is torn down finds that slot or an earlier one |
| Iocp.LeakedByCallback | src/core/iocp_win.c:219-238 | One selector whose close callback registers another leaves a container that no completion names |
| Iocp.IocpPoll.TearDownAll | src/core/iocp_win.c:219-238 | The sweep leaves just the slots the specification says, and in them nothing that was there before |
| Iocp.IocpPoll.DrainBatch | src/core/iocp_win.c:258-273 | Handling a batch keeps the invariant and frees its zombies |
| Iocp.IocpPoll.Drain | src/core/iocp_win.c:247-275 | Waits until no zombie is left or patience runs out, exactly as specified; enough waits leave none |
| Framing.ChunksDoNotMatter | src/core/ipc.c:1203-1293 | However a byte stream is cut into chunks, the credentials accepted, the frames dispatched and the state left behind are those of the whole stream |
| Framing.FeedSplit | src/core/ipc.c:1203-1293 | Bytes arriving in two pieces have the effect of the same bytes arriving at once, from any state |
| Framing.HeaderRoundTrip | src/core/ipc.c:216-231 | A header encoded in either byte order parses back to its fields |
| Framing.FramesRoundTrip | src/core/ipc.c:1247-1293 | The frames sent are the frames dispatched, in order and byte for byte |
| Framing.LineRoundTrip | src/core/ipc.c:1203-1245 | A credentials line is accepted as it was sent |
| Framing.Delivered | src/core/ipc.c:1203-1293 | End to end: credentials and frames cut up in any way arrive as they were sent |
| Framing.NoFrameBeforeCredentials | src/core/ipc.c:1203-1245 | Whatever bytes arrive in whatever pieces: if anything is handed out, it begins with credentials that were accepted and that the stream spells out up to its first zero byte, and only frames follow |
| Framing.RefusedCloses | src/core/ipc.c:1228-1234 | Credentials that are refused close the connection, whatever follows them |
| Framing.LongLineCloses | src/core/ipc.c:1203-1245 | So does a line of more than 512 bytes |
| Framing.RequestIsHanded | src/core/ipc.c:1203-1245 | A line that begins like an HTTP request is handed over with all that was read |
| Framing.FramesThen | src/core/ipc.c:1247-1293 | Good frames are dispatched and what follows them is read as if it stood alone |
| Framing.BadHeaderCloses | src/core/ipc.c:1247-1268 | Behind any number of good frames, a header that no frame has closes the connection |
| Framing.FatalCloses | src/core/ipc.c:1270-1293 | A frame whose handling asks for it is the last |
| Framing.HeaderIsExact | src/core/ipc.c:216-231 | A header is accepted only if it is the encoding of its fields |
| Framing.KnownHeaders | src/core/ipc.c:216-231 | The two byte orders, and what is refused, on concrete headers |
| Connection.Conn.RxRequest | src/core/poll.c:61-74 | The buffer is reused when it is large enough, else replaced; either way it is empty and of the size asked for |
| Connection.Conn.ReadHandshake | src/core/ipc.c:1203-1245 | One byte of the line taken in: what is still to come is what it was |
| Connection.Conn.ReadHeader | src/core/ipc.c:1247-1268 | A header taken in, or the connection closed |
| Connection.Conn.ReadPayload | src/core/ipc.c:1270-1293 | A payload dispatched, the machine back at a header before that |
| Connection.Conn.Receive | src/core/epoll.c:197-248 | For any splitting of the bytes by `recv`, one readable event hands out exactly the events the stream specification gives and ends in its state; it terminates |
| Connection.Conn.Pump | src/core/ipc.c:1972-2003 | The pump of a waiting sender stops behind the first response frame, and what it leaves unread continues the stream without loss or repetition |
| Deferral.RepliesAtMostOnce | src/core/ipc.c:1366-1409 | Over every run without an overwritten deferral no request is answered twice, and each finished one is answered or still owed its one reply |
| Deferral.ExactlyOnceIffClean | src/core/ipc.c:1366-1409 | Over every run whose frames have ended, each request gets one reply in all if and only if no defer overwrote the answered deferral of a frame still running |
| Deferral.AnsweredTwice | src/core/ipc.c:2385-2399 | A concrete run in which a request is answered twice: it defers, is answered, and lets a nested request defer |
| Deferral.StepSound | src/core/ipc.c:1366-1409 | Every operation but the overwriting defer keeps each request answered at most once |
| Deferral.OverwriteSpoils | src/core/ipc.c:2394-2397 | The overwriting defer puts an answered request on its way to a second answer |
| Deferral.ConnData.DeferResponse | src/core/ipc.c:2385-2399 | Succeeds exactly if afterwards the deferral in place is that of the running request, and otherwise follows the specified step: another deferral still unanswered is not displaced |
| Deferral.ConnData.SendDeferredReply | src/core/ipc.c:2406-2428 | Succeeds exactly when a deferred reply is owed |
| Deferral.ConnData.BeginFrame | src/core/ipc.c:1366-1368 | A request gets the next sequence number, any other frame none |
| Deferral.ConnData.EndFrame | src/core/ipc.c:1379-1409 | The enclosing sequence number comes back, and the reply goes out unless this frame deferred it |
| Deferral.ConnData.Perform | src/core/ipc.c:1366-1409 | A frame with everything nested in it does what the run of its operations does |
| Deferral.BodyKeepsStack | src/core/ipc.c:1366-1379 | Whatever a frame does, the frames around it are still running afterwards |
| Deferral.PlainIsAnsweredAtEnd | src/core/ipc.c:1366-1409 | A request that neither defers nor nests is answered when it ends and not before |
| Deferral.DeferredIsAnsweredLater | src/core/ipc.c:2385-2428 | A request that defers is not answered when it ends but when the deferred reply is sent |
| Deferral.AsyncIsNotAnswered | src/core/ipc.c:1366-1409 | A frame that expects no reply gets none and cannot defer |
| Codec.RoundTrip | src/core/ipc.c:109-195 | Whenever compression yields anything it is shorter than the input, and decompression with room for the original, or with more, restores it byte for byte and writes nothing behind it; with less room it yields nothing or fills the room with what the original begins with |
| Codec.PackedDecodes | src/core/ipc.c:157-195 | Decoding what the differences pack to restores the source if there is room for it, whatever runs and literals that takes; else it yields nothing or the beginning of the source |
| Codec.ExpandPacked | src/core/ipc.c:165-187 | From any position on and with any room, the decoder reads the packed pieces back as the bytes they stand for, as far as they fit |
| Codec.UndeltaRestores | src/core/ipc.c:189-193 | Summing up byte differences restores the bytes, wrap-around included |
| Codec.MeasureRun | src/core/ipc.c:131-134 | The run loop stops at the end, at another byte, or at 127 |
| Codec.MeasureLiteral | src/core/ipc.c:140-147 | The literal loop stops at the end, before a pair, or at 128 |
| Codec.Compress | src/core/ipc.c:109-155 | Nothing for short input, for a full destination or when nothing is gained; otherwise the packed differences |
| Codec.Decompress | src/core/ipc.c:157-195 | Writes exactly the decoded bytes and nothing behind them; a malformed stream yields nothing |
| Codec.CompressRepeated | src/core/ipc.c:109-155 | A byte repeated more than 2000 times is compressed to two bytes for every 127 and at most two more; up to 2000 bytes are never compressed |
| Codec.EqualBytesPack | src/core/ipc.c:127-137 | Equal differences pack to two bytes for every 127 of them |
| Codec.KnownStream | src/core/ipc.c:165-193 | A run, a literal and their sums on a concrete stream, and three malformed ones |
| Rand.Unbiased | src/core/rand.c:59-70 | Every output below `m` comes from exactly floor(2^64/m) accepted words |
| Rand.RejectedWords | src/core/rand.c:63-67 | Exactly 2^64 mod m words are rejected, so no more than must be |
| Rand.CountBelow | src/core/rand.c:59-70 | The words accepted for the first `n` outputs number n times floor(2^64/m) |
| Rand.AcceptedIff | src/core/rand.c:60-64 | A word is accepted for output `r` if and only if its product lies in one fixed stretch |
| Rand.PreTestSound | src/core/rand.c:62-62 | A low word not below `m` is not below the threshold either, so the cheap test never accepts too much |
| Rand.Generator.Below | src/core/rand.c:59-70 | The draw is that of the first accepted word of the stream; exactly the words before it are consumed and rejected |
| TimerHeap.Timers.FireExpired | src/core/timer.c:170-228 | With the clock standing still: fires exactly the pending deadlines, in strictly increasing (deadline, id) order, each by a call of the callback its timer came with, leaves exactly the timers that remain, and terminates |
| TimerHeap.FiresEach | src/core/timer.c:170-228 | Among the pending deadlines each timer has exactly as many as it is due for: floor((now-exp)/tic)+1, capped by a non-zero `num` |
| TimerHeap.DueDeadlines | src/core/timer.c:206-223 | The number of fires of a timer counts exactly its deadlines that have passed, up to its limit |
| TimerHeap.PendingStep | src/core/timer.c:175-226 | Firing the head takes exactly its deadline off what is pending |
| TimerHeap.PendingLater | src/core/timer.c:175-226 | Everything still pending comes strictly after what was just fired |
| TimerHeap.LeftStep | src/core/timer.c:206-223 | What will remain in the end does not depend on which fires have already happened |
| TimerHeap.LeftFrom | src/core/timer.c:206-223 | What is left of a timer is the same timer: its id, interval and callback do not change |
| TimerHeap.HeapUp | src/core/timer.c:92-100 | From an entry that may be too small for its place, sifting up restores the heap order by rearranging |
| TimerHeap.HeapDown | src/core/timer.c:103-114 | From an entry that may be too large for its place, sifting down leaves a heap except that this entry may still have to rise |
| TimerHeap.HeapSwap | src/core/timer.c:86-90 | Exchanges two entries and nothing else |
| TimerHeap.RootIsFirst | src/core/timer.c:165-168 | No timer of a heap comes before its root |
| TimerHeap.Timers.Add | src/core/timer.c:128-145 | Adds exactly the new timer under a fresh id, growing the array when it is full |
| TimerHeap.Timers.Del | src/core/timer.c:147-163 | Removes exactly the timer of that id, from anywhere in the heap, and says whether there was one |
| TimerHeap.Timers.NextDeadline | src/core/timer.c:165-168 | The earliest deadline of all timers, if there is one |
| TimerHeap.Timers.FireHead | src/core/timer.c:175-223 | The first due timer fires and is rescheduled or gone, the others are as they were |
| Calendar.DateToYmd | src/lang/cal.h:51-74 | From 0001-01-01 to 5879611-07-03, 184 days into the last year that a 32-bit count begins, the date is the one that many days later, whatever the error of the division; before that and in the nine days left the result is no valid date |
| Calendar.EncodeThenDecode | src/lang/cal.h:136-143 | Decoding undoes encoding for every valid date up to 5879611-07-03 and for no later one |
| Calendar.DecodeThenEncode | src/lang/cal.h:51-74 | Encoding undoes decoding for every day from 0001-01-01 on, also where the date is not valid, and for no earlier one |
| Calendar.EncodeDecoded | src/lang/cal.h:136-143 | Encoding gives back the very offset the parts were decoded from, short of the years before the first, which it does not count |
| Calendar.EncodeCounts | src/lang/cal.h:136-143 | Encoding gives the days since 2000-01-01, for every date within 32 bits |
| Calendar.KnownDays | src/lang/cal.h:136-143 | The day numbers of dates around the epoch, leap days and turns of centuries |
| Calendar.OneCorrection | src/lang/cal.h:52-57 | The rounded estimate of the year is right or one too large, so its single correction always suffices |
| Calendar.YearsEstimated | src/lang/cal.h:52-59 | The corrected estimate is the number of complete years before the day, and nothing wraps |
| Calendar.EstimateTooLarge | src/lang/cal.h:52-59 | In the last nine days of the 32-bit range the estimate is a year too large, and is not corrected because the days of that year wrap |
| Calendar.NextDayIsNext | src/lang/cal.h:37-48 | From each date to the next, by the rules of the calendar, the day number grows by one |
| Calendar.NthIsNth | src/lang/cal.h:42-48 | The date `k` days after the first has day number `k` |
| Calendar.SameDay | src/lang/cal.h:37-48 | No two valid dates have the same day number |
| Calendar.MonthOf | src/lang/cal.h:64-69 | The downward scan finds the month in which the day of the year lies |
| Calendar.DayHasNanoseconds | src/lang/cal.h:33-33 | A day is 24 hours of 60 minutes of 60 seconds of 10^9 nanoseconds |
| Calendar.SplitFloors | src/lang/cal.h:78-86 | The split is the day at or before the instant and a time of day, also before the epoch |
| Calendar.SplitThenCompose | src/lang/cal.h:78-94 | Composing the parts restores every timestamp except the smallest 64-bit number, which is none |
| Calendar.ComposeThenSplit | src/lang/cal.h:78-94 | Splitting a composed timestamp restores its parts |
| NumParse.ParseI64 | src/core/numparse.c:110-166 | Consumes the optional sign and the whole digit run and gives its exact value, or nothing exactly when there is no digit or the value is no 64-bit integer |
| NumParse.ParseWritten | src/core/numparse.c:110-166 | Parsing undoes writing: a number written in decimal, up to the first byte that is no digit, is read as itself if it is a 64-bit integer, and as nothing otherwise |
| NumParse.ReadsBack | src/core/numparse.c:110-128 | A decimal number, with or without a sign, stands for itself |
| NumParse.FirstWords | src/core/numparse.c:129-140 | The eight- and sixteen-digit blocks give the value of those digits, within a word |
| NumParse.Tail | src/core/numparse.c:147-153 | The scalar tail gives the value of the whole run, or stops at the twentieth significant digit; no step wraps |
| NumParse.SkipZeros | src/core/numparse.c:124-125 | Leading zeros change neither where the digits end nor their value |
| NumParse.Fit | src/core/numparse.c:157-164 | The sign is applied exactly within the range of 64-bit integers |
| NumParse.ScanDecimal | src/core/numparse.c:259-333 | The scan ends where the decimal ends, reports whether there was a digit, and keeps all its digits or the first 18 significant ones, with the power of ten that restores their place |
| NumParse.DecimalReadsBack | src/core/numparse.c:259-333 | Digits, a point and digits are read as all those digits with as many places as are written |
| NumParse.KeptIsTruncated | src/core/numparse.c:259-333 | What is kept is below 10^18 and is the decimal truncated after 18 significant digits, hence equal to it when 18 are enough |
| NumParse.IntegerPart | src/core/numparse.c:264-293 | The blocks and the scalar loop of the integer part together keep the digits up to the point |
| NumParse.FractionPart | src/core/numparse.c:295-331 | Likewise for the fraction, whichever path runs |
| Swar.Is8Digits | src/core/numparse.c:47-53 | The word test is true if and only if all eight bytes are digits |
| Swar.AllDigits | src/core/numparse.c:47-53 | The same for any number of lanes, in spite of borrows and carries between them |
| Swar.EightDigits | src/core/numparse.c:69-91 | The three-step fold of eight digits is the number they write |
| Namespace.GetAfterSet | src/lang/env.c:404-509 | After a successful set the name stands for the value, dotted or not |
| Namespace.GetOtherAfterSet | src/lang/env.c:404-509 | Setting a name changes no name that is not above or below it |
| Namespace.GetAfterDelete | src/lang/env.c:430-453 | After a delete there is nothing under the name |
| Namespace.GetOtherAfterDelete | src/lang/env.c:404-509 | Deleting a name removes no name that is not above or below it |
| Namespace.DeleteLeavesNoEmpty | src/lang/env.c:464-505 | No dictionary above a deleted name is left empty: it goes too, up to the root binding |
| Namespace.WalkPut | src/lang/env.c:454-497 | The rebuilt chain has the value at the end of the path |
| Namespace.WalkPutOther | src/lang/env.c:454-497 | and everything else where it was |
| Namespace.WalkCut | src/lang/env.c:444-479 | The cut chain has nothing at the end of the path |
| Namespace.WalkCutOther | src/lang/env.c:444-479 | and everything else where it was |
| Namespace.CutLeavesNoEmpty | src/lang/env.c:464-479 | and no empty dictionary along the path |
| Namespace.TopmostFrame | src/lang/env.c:146-152 | Among the scope frames the topmost one that binds the name or is a barrier decides |
| Namespace.BarrierHides | src/lang/env.c:151-156 | A binding below a barrier is not seen: the global is |
| Namespace.LocalIsFound | src/lang/env.c:145-166 | A name stands for the first binding of the topmost frame that binds it, with no barrier above, whatever the globals are |
| Namespace.GlobalIsFound | src/lang/env.c:145-166 | and for the global if no frame down to the nearest barrier binds it |
| Namespace.PathIsFollowed | src/lang/env.c:159-185 | A dotted name without a binding of its own is the path through the local or global its first segment is; a name bound nowhere is nothing |
| Namespace.ObstacleRefuses | src/lang/env.c:404-428 | A dotted write fails and changes nothing if and only if something along its path is there and no dictionary |
| Namespace.FullStoreRefuses | src/lang/env.c:313-341 | The 8193rd global is refused and changes nothing |
| Namespace.MarksStay | src/lang/env.c:313-341 | A binding once written by user code keeps its mark until it is removed, a user write sets it, and the system sets none |
| Environment.Env.EnvGet | src/lang/env.c:159-185 | A name stands for its own binding, else for the end of the path through its first segment |
| Environment.Env.LookupFlat | src/lang/env.c:145-157 | The innermost binding above the nearest barrier, else the global |
| Environment.Env.BindGlobal | src/lang/env.c:298-341 | The arrays hold exactly the bindings: overwritten, appended, removed by shifting, or refused when full; a user write marks the slot for good |
| Environment.Env.DropSlot | src/lang/env.c:302-311 | Shifting the arrays down removes exactly that binding |
| Environment.Env.SetDotted | src/lang/env.c:404-509 | The bottom-up rebuild of the chain is the specified write or cascading delete, with its errors |
| Environment.Env.Set | src/lang/env.c:569-581 | A user write is refused in reserved namespaces, and is the specified store elsewhere |
| Environment.Env.Bind | src/lang/env.c:558-563 | A write by the system is the specified store |
| Environment.Parents | src/lang/env.c:411-428 | The downward walk finds the dictionaries along the path, or that something else is in the way |
| Environment.Rebuild | src/lang/env.c:454-497 | The upward loop puts the value at the end of the path |
| Environment.RebuildWithout | src/lang/env.c:441-497 | The upward loop cuts the end of the path and every dictionary that leaves empty |
| Brackets.FindMatching | src/app/term.c:782-826 | Gives the partner of the bracket under the cursor; -1 exactly when it has none, or is a closing one in a buffer over 4096 bytes |
| Brackets.ThereAndBack | src/app/term.c:782-826 | From the partner of a bracket the way leads back to it if and only if the buffer has at most 4096 bytes; in a longer one there is no way back |
| Brackets.WideThereAndBack | src/app/term.c:811-813 | A pair of brackets of any kind with n blanks between, for every n: the opening one leads to the closing one, and back up to 4094 blanks |
| Brackets.StringsAreQuotedParts | src/app/term.c:757-770 | In a text of plain parts and quoted parts with escapes, a place is inside a string if and only if it is within a quoted part |
| Brackets.QuotedWeighsNothing | src/app/term.c:797-822 | Brackets in a quoted part do not change the depth |
| Brackets.BalancedBetween | src/app/term.c:797-822 | Between partners the brackets of their kind outside strings balance and never go below zero |
| Brackets.OnePartner | src/app/term.c:782-826 | A position has at most one partner |
| Brackets.FromTheRight | src/app/term.c:811-822 | What the forward scan takes for a pair the backward scan does too |
| Brackets.ScanForward | src/app/term.c:797-810 | The first place where the depth is back to zero, or none |
| Brackets.ScanBackward | src/app/term.c:811-822 | Likewise from the right, over the string map |
| Brackets.StringMap | src/app/term.c:773-780 | The map says of each byte whether a string reaches over it |
| Brackets.InStringAt | src/app/term.c:763-770 | Whether an odd number of unescaped quotes comes before |
| Brackets.IsEscaped | src/app/term.c:757-761 | Whether an odd number of backslashes comes right before |

## Left out

- Special forms without bytecode (`OP_CALLD`, `OP_SCOPE_BEGIN`, `OP_SCOPE_END`), nested `fn`, lazy values, null operands, apply and name hooks, restricted mode, interrupts and error-trace frames: they call code outside this model.
- Builtins, lambdas that did not compile and higher-order builtins: an uninterpreted host that may fail, rebind globals, leave a pending raise value and change the rest of the process, whose states are numbered.
- Dotted names inside the VM: a global is looked up by its whole name; temporal fields, links and methods of `ray_env_resolve` are not part of this model, and neither are scope frames of a tree-walking caller.
- Float constants in the pool: deduplication by `==` merges 0.0 and -0.0.
- Correctness.CompilerCorrect: speaks of stacks without bounds; `Correctness.ExecutorCorrect` and `Correctness.ExecutorComplete` say the same of the real stacks as long as no capacity check fires.
- Vm.Executor.Cleanup: references are counted by value, not by object identity, so two objects of equal value share a count; error objects are counted too, though the source's retain and release skip them (`src/mem/cow.c:41-58`).
- VmRuns.CallLambda: runs at most a given number of instructions, since a lambda need not end; the clause on the evaluator is for runs in which no capacity check has fired.
- Thread pool: cancellation, shutdown, a change of `n_active` during a run and C11 memory orders; the ring mask is written as a remainder, and a failed `realloc` is a free choice.
- PoolRuns.DispatchesCanFinish: says that some schedule ends the dispatch, not that a fair one does.
- Iocp: the stdin watcher, listeners and the reading of a live socket between completions, which can only arm, deregister and register; close callbacks do not arm probes.
- Iocp.IocpPoll.Destroy: is called between batches; it frees the reactor itself, whose loop could not go on with its batch.
- IPC: TLS, WebSocket, HTTP, authentication itself (a verdict given by the peer), the legacy server and kqueue; a dispatch is an event that does not re-enter the connection, and no connection closes while its deferral is open.
- Deferral: a malformed request, which is answered with an error and closes the connection.
- Allocation failure: taken not to happen.
- Timers: deadlines are unbounded integers, and a callback's own work is not modelled.
- Rand: the generator's step and seeding; its words are a given stream.
- Calendar: the datetime split of floats is not part of this model.
- Float parsing after the decimal scan: exponents, NaN and infinities, `scale_pow10`, `strtod`, and the width of `dec_offset`.
- Environment: the spin lock, dictionaries with keys that are not symbols, key order, paths of more than 256 segments, and interning, a name being its list of segments.
- The rest of `term.c`, the affine sum cache, `atomic_map_*`, `gather_by_idx`, formatting and the `wasm/` glue: no depth beyond the parts above, or user interface.

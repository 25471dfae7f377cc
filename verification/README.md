# Verification model of the bytecode pipeline

This project models the path from a JavaScript expression to native code, and four smaller cores next to it, and proves that each step keeps the meaning of the program:

- **Source to bytecode.** `Expr` evaluates expressions left to right; `Codegen` and `FnCompiler` compile them to register bytecode (a register stack pointer, back-patched 16-bit jumps, a shared constant pool, optional chains); `Interp` runs bytecode over NaN-boxed words; `Compiled.Sim` connects them.
- **Bytecode to native code.** `Analyze` is the gate that decides what may be compiled; `Emit`, `Translate` and `Compile` build basic blocks of guarded integer and float code (`Ir`); `Blocks`, `Instructions` and `Fragments` prove that the blocks do what a flat machine (`Native`) does, instruction by instruction; `Complete` says exactly which regions are translated (with `Sealing`: no block is left half-made), and `Verdicts` exactly which functions are compiled, tried again later, or never compiled; `IntLane` and `BoxedLane` prove that a compiled call ends as interpretation ends, including the deopt that restarts a call and the deopt that resumes at an exact pc.
- **The two ends together.** `Pipeline` compiles a function body `return e;` and proves that calling its native code gives what evaluating `e` gives. `Escape` and `Reading` carry concrete functions through compiler, gate, translator, native machine and interpreter: they show that the premises can be met, and what happens where they are not.
- **What the shared operations compute.** Both lanes and the compiler rest on the same Number, key and operand operations, so agreement alone would not show a fault in these. `NumberLaws` (rounding to nearest, quotients, order, bits), `OperationLaws` (conversions, operand order, refusals, what a call binds) and `CodeLaws` (literal property keys, assignments that become increments) say what they compute.
- **Snapshot codec** (`Snapshot`, `SnapshotIO`, `SnapshotFormat`), **chunk builder** (`Chunk`), **inline caches** (`PropertyCache`), **Annex B hoisting** (`AnnexB`), **range tables** (`Ranges`).

Numbers are exact: a double is its 64-bit pattern, decoded to a dyadic rational, and every operator rounds to nearest, ties to even (section 4.3.1 of IEEE 754-2019). The heap, property traps, callees, conversions of objects and every other operation that may run user code are a `Host` that answers an event from the history of events, so "the same trace" means that every property store and call happens once and in the same order; a re-run from the start keeps the history of what native code did before it. What the interpreter's opcodes do around the answer (throwing on a nullish base, on a failed store in strict code, on a callee that cannot be called or is a class constructor) is `Interp.Operate`; what the native helpers do around theirs, which is not the same, is `Ir.Help`, over an answer of their own. The integer lane's theorems hold for every host; the boxed lane's say where the two sides agree and where they part.

A call of the interpreter binds more than its parameters: `new.target`, the arguments object, the rest parameter and the name of a function expression, which sloppy code cannot overwrite (`Interp.CallEnv`, `Interp.WriteFixed`). Native code knows none of these. What closures created by the running function can see and change is confined to the names they mention (`Interp.Seen`), so a frame that lacks a name such a closure reads is told apart from one that has it.

Two things are normalised. The engine has two representations of `undefined`, the zero word and a heap cell; the model has the zero word only, and "bit for bit" is meant up to that. A text is a word determined by its characters, where the engine may allocate it again.

Code that changes state in the source (the function builder of the JIT, the gate's passes, the chunk builder, the expression compiler, the snapshot writer and reader, the inline cache, the hoisting walk, the range merge) is written as classes and methods with loops, each proved equal to a function; the theorems are about those functions.

## Premises

The theorems about compiled calls hold under conditions that a caller can check on the bytecode, written as predicates:

- `IntLane.Certified`: a table of facts, one per reachable instruction, inductive along control flow. Registers read as numbers hold numbers, a variable was assigned before it is read (slots start at 0, not at `undefined`), every assigned name is bound. Registers may also hold "a number or a comparison result"; branches, `NOT` and `MOVE` accept those.
- `IntLane.ReturnsNumbers`: every returned register holds a number. `IntLaneExact` shows exactly what is lost without it, and `Escape.ComparisonEscapes` gives an accepted function, `return (a < a) && a;`, whose native code returns 0 where the interpreter returns `false`.
- `BoxedLane.HelpersAgree`: the native helpers' copy of the property and call machinery answers an event as the interpreter's own does, private names and class constructors apart. What the two do around the answer is modelled and is not assumed to agree.
- `BoxedLane.SafeRun`: in the run at hand no static-key access has `undefined` or `null` as its base, no store fails in strict code, every callee can be called and is no class constructor, and no private name is accessed, up to the creation of the first closure, where native code hands over. `BoxedLane.LockStep` needs it only up to the point it speaks of; `StepAgree` is the if-and-only-if for one instruction, `BoxedLaneExact` the one for whole calls, and `UnsafeParts` says what the two machines do where it fails. `Reading.BoxedPremises` and `Reading.IntPremises` meet all premises on compiled functions.
- `BoxedLane.Certified`: registers are written before they are read, a comparison result is read only by the jump that follows, a conditional jump reads only a comparison result, and every own name is bound before a closure is created.
- `BoxedLane.Clear` and `BoxedLane.NoLeak`: none of the names a call binds by itself (`Interp.CallNames`) is a variable native code keeps in a slot, own or captured, and none is mentioned by a closure the function creates. `StepAgree` says when a captured read agrees without the first: if and only if the call does not bind the name, or binds it to the word it has outside. `Reading.OwnNameReads` shows a function that has all premises but this one.
- `IntLane.Unfixed`: the function's own name is none of its variables, and its rest parameter none of its other parameters.
- `BoxedLane.NoPrivate` (in `BoxedLaneExact` only): no instruction names a private element.
- Parameter names are distinct, and a call passes no more arguments than there are parameters.
- Results of the integer lane are stated up to the sign of zero (`IntLane.SameUpToZero`), because that lane has no negative zero.
- Variables captured from outside do not change during one run (`outer` is fixed), since native code reads them once, on entry.

## Disagreements between the code and its comments

- The gate's comment says that a comparison result cannot leave the jump that follows it. The gate only checks that the next instruction is a jump on the same register, so the result survives the jump; see `Escape.ComparisonEscapes`.
- The size table of the translator has no entry for HOIST_LEX and INIT_LEX although the gate admits them; such functions are simply not compiled (`Emit.SizesAgree` covers the opcodes that are in both tables).
- The peephole that turns `x = x + 1` into an increment is not always faithful: on the text "5" it stores 6 instead of "51" (`ExprLaws.PeepholeOnText`). `x = x - 1` on a text is unharmed. `ExprLaws.PeepholeExact` gives the exact condition for every value.
- The native property helpers are described as running the interpreter's full machinery. They do not throw on `undefined.x` or `null.x`, as the opcodes do, but yield `undefined` or store nothing (src/vm/bc_vm.zig:3671-3677, 2869-2870, 3351-3352 against src/vm/ops/property.zig:119 and 407); `Reading.UndefinedReads` shows it on `return o.x`.
- They also ignore the success of a store, where the opcodes throw in strict code (src/vm/ops/property.zig:424-435), and the gate does not ask whether a function is strict. A private name `#x` reaches them as an ordinary key.
- The native call helper throws another error than the call opcode when the callee cannot be called, and for `undefined` none of its own (src/vm/bc_vm.zig:3976-3985, 609-614, 4038-4040).
- A class constructor throws when it is called (src/vm/bc_vm.zig:4049). The direct path of the native call helper runs its compiled code without asking (src/vm/bc_vm.zig:3937-3950).
- A call also binds `__new_target__`, `arguments`, the rest parameter and the function's own name (src/vm/bc_vm.zig:4100-4128, 4571-4685; the own name also for `var f = function ...`, src/bytecode/compiler.zig:3320-3331). Native code looks a captured name up in the defining environment only (src/jit/int_fn_jit.zig:562-565), a resumed frame has the owned slots only (src/vm/bc_vm.zig:3870-3874), and neither the gate nor its callers ask. After `var f = function (x) { return f; }; var h = f; f = 1;` the call `h(0)` gives the function when interpreted and 1 when compiled (`Reading.OwnNameReads`).
- The gate of the boxed lane admits a conditional jump on any word. Native code tests the word against 0, so `false`, `null` and the number 0 count as true (`BoxedLane.BranchExact`, `BoxedLane.BranchOnWords`); the certificate excludes such jumps.

## Model

| member | source | states |
|---|---|---|
| Pipeline.CompileReturning | src/bytecode/compiler.zig:3721-3826 | A sloppy body of one return statement compiles, with the mutable compiler, to the expression's code, RETURN and RETURN_UNDEF, and fails exactly when the pool outgrows 16 bits or a jump does not fit |
| Pipeline.Interprets | src/bytecode/compiler.zig:3458-3642 | Interpreting the compiled function ends, in exactly one way, and that way is what evaluating the returned expression gives in the environment of the call, with the parameters, `new.target`, `arguments`, the rest parameter and the function's own name bound, for any arguments |
| Pipeline.SourceToBoxed | src/vm/bc_vm.zig:3803-3849 | From source to native code in the boxed lane, for a run whose accesses are safe and a body that reads no name the call binds by itself: a compiled call has an outcome if and only if it is the outcome of evaluating the source expression (value or error, and the events before it) |
| Pipeline.SourceToInt | src/jit/int_fn_jit.zig:552-594 | From source to native code in the integer lane: on every vector of small integers the compiled call ends and gives the value of the source expression up to the sign of zero |
| Pipeline.PlainMeaning | src/bytecode/compiler.zig:1291-1311 | As long as each step `x = x + 1` or `x = x - 1` finds in its variable, at the moment it is evaluated, a value that may be stepped, the meaning with the increment peephole is plain left-to-right evaluation |
| Pipeline.EscapeIsCompiled | src/bytecode/compiler.zig:1203-1234 | The bytecode of the counterexample is what the compiler emits for `(a < a) && a` |
| Pipeline.ReadersAreCompiled | src/bytecode/compiler.zig:1983-2065 | The bytecode of the functions in `Reading` is what the compiler emits for `o.x`, for `o`, and for `f` in a function expression named f |
| Escape.GateAccepts | src/jit/int_fn_jit.zig:320-525 | A concrete function passes all gate passes and is translated: the premise that the gate accepts is satisfiable |
| Escape.ComparisonEscapes | src/jit/int_fn_jit.zig:495-504 | On every small integer the accepted function's native code returns the number 0 without a deopt while interpretation returns false: the comparison rule of the gate is not enough |
| IntLane.IntLaneCorrect | src/jit/int_fn_jit.zig:552-594 | For every accepted, certified function that returns numbers and every vector of small integers: each outcome of the compiled call (native value, or interpretation from the start, after no event, on a deopt) is an outcome of interpretation up to the sign of zero, and the other way round, for loops of any length |
| IntLane.IntLaneExact | src/jit/int_fn_jit.zig:495-504 | Without the premise on returned values: the native value equals the interpreter's up to the sign of zero if and only if the interpreter returned a number. That is a condition on the run; the static premise of `IntLaneCorrect` is sufficient for it, not necessary |
| IntLane.LockStep | jit-native/src/lib.rs:972-1446 | After any number of instructions native code and interpreter stand at the same pc with related registers and variables, or native code has asked for a re-run, or both returned the same value |
| IntLane.StepAgree | jit-native/src/lib.rs:987-1439 | One instruction: the native step and the Number-semantics step lead to related states, or native code deopts |
| IntLane.RangeKept | jit-native/src/lib.rs:1035-1057 | An accepted instruction keeps every register and local in [-2^53, 2^53] |
| IntLane.RangeInvariant | jit-native/src/lib.rs:534-574 | From any state in the band every reachable state is in the band, for runs of any length |
| IntLane.CallInRange | src/jit/int_fn_jit.zig:552-560 | Every state a compiled call reaches from its marshalled arguments is in the band |
| IntLane.NeverBad | src/jit/int_fn_jit.zig:415-509 | The flat machine never meets an instruction it cannot run on accepted code |
| BoxedLane.BoxedLaneCorrect | src/vm/bc_vm.zig:3803-3849 | For every accepted, certified function that neither reads nor leaks a name the call binds by itself, and all arguments: if every access of the interpretation is safe, a compiled call has exactly the outcomes interpretation has, the same events each performed once |
| BoxedLane.BoxedLaneExact | src/vm/bc_vm.zig:3803-3849 | Such a function without private names: a compiled call that returns a value has the outcome of interpretation if and only if every access of the interpretation is safe |
| BoxedLane.NeverRerun | src/jit/int_fn_jit.zig:576-588 | Once native code of the boxed lane has started, the call is never run again from the start: whatever the arguments and the engine, its exits are a value, a throw, or the registers, locals and pc to go on from |
| Complete.TranslatesExactly | jit-native/src/lib.rs:375-403 | A region is translated if and only if it has an instruction and each one is whole and known, its variable has a slot, its property access a site, and its jump (for a conditional one, also the way on) lands on an instruction before the end |
| Complete.EmitsKnown | jit-native/src/lib.rs:987-1439 | The emitter takes an instruction if and only if its opcode is on the list of its lane, its variable has a slot, its access a site and its jumps have blocks |
| Sealing.GoodInstr | jit-native/src/lib.rs:987-1439 | Emitting any instruction leaves every block with instructions, but for the one being filled and the leaders ahead, and names only blocks that exist |
| Verdicts.VerdictIs | src/jit/int_fn_jit.zig:320-525 | The verdict on every function: accepted if and only if it is an ordinary function whose instructions all pass, with warm caches, and whose jumps land; tried again if and only if a property access that passes has a cold cache before anything is refused; never if and only if one of the listed reasons holds |
| Verdicts.PlanIs | src/jit/int_fn_jit.zig:505-525 | An accepted plan has the function's code, registers, arity and, in the boxed lane, constants; its own names first, then, in the boxed lane, exactly the names it reads besides |
| Verdicts.PlanSites | src/jit/int_fn_jit.zig:452-481 | And every property access has its site, with its key |
| CodeLaws.KeyRead | src/bytecode/compiler.zig:2005-2047 | `o.s`, `o["s"]` and a number literal spelled s evaluate alike: the base is asked for the property s, unless an optional link leaves its chain |
| CodeLaws.KeyWrite | src/bytecode/compiler.zig:1327-1357 | The same for stores: base, value, then one store under s, with the value as result |
| CodeLaws.KeyCode | src/bytecode/compiler.zig:2005-2047 | They compile to the same code, reads and stores |
| CodeLaws.KeyInCode | src/bytecode/compiler.zig:2020-2047 | That code ends with a GET_PROP, or a SET_PROP and a MOVE, whose index denotes the text s in the pool |
| CodeLaws.StepIsShort | src/bytecode/compiler.zig:1291-1311 | `n = n + 1` and `n = n - 1` compile to load, INC or DEC in place, store |
| CodeLaws.OthersStore | src/bytecode/compiler.zig:1289-1368 | Every other assignment to a variable is the code of its value and one store of it |
| NumberLaws.RoundsToNearest | jit-native/src/numeric.rs:92-97 | Rounding any quotient gives a 53-bit value; none is closer, and of two that are as close it is the even one |
| NumberLaws.AddRounds | src/vm/bc_vm.zig:5310-5313 | A sum of finite Numbers is the exact sum rounded so, with the sign of an exact zero |
| NumberLaws.MulRounds | src/vm/bc_vm.zig:5448-5464 | A product is the exact product rounded so, negative when the signs differ |
| NumberLaws.DivRounds | src/vm/ops/arith.zig:162-169 | A quotient is the exact quotient rounded so, negative when the signs differ |
| NumberLaws.DivExact | src/vm/ops/arith.zig:162-169 | A quotient with 53 significant bits is not rounded |
| NumberLaws.DivOfInts | src/vm/ops/arith.zig:162-169 | Dividing the product of two integers by one gives the other, and 0 with the divisor's sign for 0 |
| NumberLaws.DivSpecial | jit-native/src/numeric.rs:92-97 | Quotients of NaN, infinities and zeros, with their signs |
| NumberLaws.MulSpecial | src/vm/bc_vm.zig:5448-5464 | Products of NaN, infinities and zeros, with their signs |
| NumberLaws.AddSpecial | src/vm/bc_vm.zig:5310-5313 | Sums of NaN, infinities and zeros; addition commutes |
| NumberLaws.NegIs | jit-native/src/numeric.rs:103-128 | Negation flips every sign, that of zeros and infinities too, and undoes itself |
| NumberLaws.RemIs | src/vm/bc_vm.zig:5934-5939 | A remainder is what is left of the dividend, with its sign, below the divisor; NaN and the cases that give the dividend back |
| NumberLaws.RangeIs | jit-native/src/lib.rs:634-681 | The largest finite double is finite, one step more is infinite |
| NumberLaws.OrderIs | src/vm/ops/compare.zig:105-160 | Less and Equal are the order and equality of the values, the infinities at the ends, the zeros equal, NaN apart |
| NumberLaws.Trichotomy | src/vm/ops/compare.zig:105-160 | Of two Numbers that are not NaN exactly one is less, or they are equal |
| NumberLaws.LessTransitive | src/vm/ops/compare.zig:105-160 | Less is transitive |
| NumberLaws.TruncateIs | src/vm/bc_vm.zig:5915-5921 | Truncation drops the fraction towards zero |
| NumberLaws.Int32Is | src/vm/bc_vm.zig:5915-5925 | ToInt32 and ToUint32 are the integer part modulo 2^32, in range; 0 for NaN and the infinities |
| NumberLaws.BitwiseAt | jit-native/src/bitwise.rs:72-100 | And, or and xor work on each bit alone |
| OperationLaws.CoerceIs | src/vm/bc_vm.zig:5966-5972 | ToNumber of undefined, null, false and true is NaN, +0, +0 and 1 |
| OperationLaws.TruthTable | src/value/value.zig:191-206 | The false values among undefined, null, booleans and Numbers are undefined, null, false, NaN and both zeros |
| OperationLaws.MakeKeeps | src/value/value.zig:539-543 | `makeNumber` and back is the identity on every Number, signed zeros included |
| OperationLaws.NullishThrows | src/vm/ops/property.zig:66-119 | A property of undefined or null throws before anything else happens |
| OperationLaws.AnyBaseIsAsked | src/vm/ops/property.zig:66-119 | Any other base is asked once, and the answer is the result |
| OperationLaws.StrictStoreFails | src/vm/ops/property.zig:424-435 | A failed store throws after the attempt in strict code, and passes in sloppy code |
| OperationLaws.CallRefused | src/vm/bc_vm.zig:4036-4049 | A call of no function, or of a class constructor, throws without a call; any other is recorded |
| OperationLaws.LeftFirst | src/vm/bc_vm.zig:5285-5290 | The left operand is converted first; if that throws the right one is not looked at |
| OperationLaws.RightSecond | src/vm/bc_vm.zig:5285-5290 | With a primitive left operand only the right one is converted |
| OperationLaws.TextsAppend | src/vm/bc_vm.zig:5291-5300 | Adding texts appends the right one to the left one |
| OperationLaws.TextsAsNumbers | src/vm/bc_vm.zig:5429-5466 | Every other operator takes texts for the numbers they read as, in their order |
| OperationLaws.BigOperands | src/vm/bc_vm.zig:5429-5448 | BigInts combine with BigInts, left and right, and with nothing else |
| OperationLaws.UnaryOperands | src/vm/ops/arith.zig:240-300 | Unary operators on texts, BigInts and symbols: the number a text reads as, the BigInt itself, and what is refused |
| OperationLaws.SymbolsRefused | src/vm/bc_vm.zig:5291-5313 | A symbol operand throws, and the error says what it would have had to become |
| OperationLaws.DivideWords | src/vm/ops/arith.zig:162-169 | On the engine's words, the product of two small integers over one of them is the other |
| OperationLaws.PrivateIsAsked | src/vm/ops/property.zig:106-118 | A private element is asked for before anything is refused |
| OperationLaws.VariablesAreHidden | src/vm/ops/call.zig:21-60 | Before a closure is created, user code neither sees nor changes the variables of the call |
| OperationLaws.ClosuresSeeTheirNames | src/vm/ops/call.zig:21-60 | Afterwards it sees the variables the closures mention, and changes no others |
| OperationLaws.FrameIs | src/vm/bc_vm.zig:4129-4150 | A fresh frame has parameters and then the function itself in its first registers, the rest undefined |
| OperationLaws.CallBinds | src/vm/bc_vm.zig:4099-4128 | The function's own name, the rest parameter, `arguments` and `new.target` are bound as the call says, the later ones over the earlier |
| BoxedLane.UnsafeRunThrows | src/vm/ops/property.zig:66-119 | On accepted code without private names, an interpretation that meets an unsafe access ends in an error, and in no other way |
| Interp.CallEnvAt | src/vm/bc_vm.zig:4099-4128 | A name the call does not bind by itself is bound to its argument, or not at all |
| BoxedLane.ExactResume | src/jit/int_fn_jit.zig:576-588 | From a deopt 3 the interpreter started in the frame rebuilt from native registers and locals ends if and only if, and as, the interpretation of the whole call ends, although it lacks the names the call binds by itself: no instruction and no closure of the function mentions one |
| BoxedLane.LockStep | jit-native/src/lib.rs:972-1446 | In a function that reads no name the call binds by itself, as long as the accesses so far were safe, after any number of instructions: same pc and related state; or the same return; or the same throw; or a hand-over whose pc, live registers, variables and event prefix are the interpreter's at a point of its run |
| BoxedLane.SyncStep | jit-native/src/lib.rs:1252-1427 | One boxed instruction of such a function, from related states, at a safe access or none, goes on, returns, throws or hands over in step with the interpreter |
| BoxedLane.StepAgree | src/vm/ops/property.zig:119 | One instruction, exactly: native code and interpreter agree if and only if the instruction makes no access, or one whose base is not nullish (static keys), whose store does not fail in strict code and whose callee can be called and is no class constructor, or both throw the same error; and a captured name, if it reads one, is not bound by the call, or to the word it has outside |
| BoxedLane.UnsafeParts | src/vm/bc_vm.zig:3671-3677 | At any other access the interpreter throws a TypeError of its own, and native code goes on to the next instruction (at a call: of a class constructor), or, at a call, throws its own error |
| BoxedLane.HelpIs | src/jit/int_fn_jit.zig:134-147 | What a helper delivers next to what the opcode does, for reads, stores and calls: the same value and events at a safe access, no event and no TypeError at a static-key access of a nullish base |
| BoxedLane.BranchExact | jit-native/src/lib.rs:1236-1251 | A conditional jump on any boxed word goes where the interpreter goes if and only if "not all bits zero" is the truth of the word |
| BoxedLane.BranchOnWords | jit-native/src/lib.rs:1236-1251 | It is not for false, null and the number 0; it is for true, the number 1 and the zero word. Of undefined's other representation, a cell with a non-zero word, nothing is said here |
| Reading.UndefinedReads | src/vm/ops/property.zig:66-119 | On undefined and on null the accepted function `return o.x` returns undefined from native code, while interpretation throws a TypeError and has no other outcome |
| Reading.OwnNameReads | src/jit/int_fn_jit.zig:562-565 | `function (x) { return f; }`, which the call names f, is accepted and meets every premise but the one on names: interpretation returns the function and nothing else, native code returns the outer `f` |
| Reading.BoxedPremises | src/jit/int_fn_jit.zig:320-525 | On `return o.x` and any other base all premises of the boxed lane's theorem hold together |
| Reading.IntPremises | src/jit/int_fn_jit.zig:320-525 | On `return o` all premises of the integer lane's theorem hold together |
| BoxedLane.LikeRun | src/vm/bc_vm.zig:3803-3849 | Interpreter frames that differ only in dead registers, in unbound names and in the names a call binds by itself run alike to the end, also after closures are out |
| BoxedLane.ResumeLike | src/jit/int_fn_jit.zig:576-588 | The frame rebuilt at a deopt differs from the interpreter's own only where nobody looks: it also lacks the names the call binds by itself |
| Calls.Marshal | src/jit/int_fn_jit.zig:552-565 | Arguments fill the owned slots in order, captures follow, the rest is 0; the early deopt happens exactly when a capture does not resolve |
| Analyzer.AnalyzeFunction | src/jit/int_fn_jit.zig:320-525 | The three passes over mutable lists give the specified verdict and plan; `Verdicts.VerdictIs` says which verdict that is |
| Analyzer.CollectNames | src/jit/int_fn_jit.zig:326-369 | Pass A finds the function's own names in slot order and all jump targets, or refuses an instruction that is cut short |
| Analyzer.CollectCaptures | src/jit/int_fn_jit.zig:376-393 | Captured names are appended once each, after the function's own |
| Analyzer.BuildPools | src/jit/int_fn_jit.zig:395-413 | Pass B gives every name constant its slot and every integral constant its native word |
| Analyzer.CheckCode | src/jit/int_fn_jit.zig:415-509 | Pass C admits exactly the opcode subset and records the property sites |
| Gate.SuccAdmitted | src/jit/int_fn_jit.zig:415-509 | On accepted code every successor of an admitted instruction is admitted or is the end; the integer lane never reaches RETURN_UNDEF |
| Gate.SitesFound | src/jit/int_fn_jit.zig:452-481 | Every accepted property access has its own site with its own key |
| Gate.ParamSlots | src/jit/int_fn_jit.zig:326-331 | With distinct parameter names the parameters have the first slots, in order |
| Gate.DeclaredFacts | src/jit/int_fn_jit.zig:340-352 | Own names are distinct, extend the parameters, and contain every declared name |
| Gate.TargetLands | jit-native/src/lib.rs:805-839 | Translated code jumps only to instruction starts before its end |
| Emit.SizesAgree | jit-native/src/lib.rs:375-403 | The translator's instruction sizes agree with `instrSize` wherever it knows the opcode |
| Blocks.TranslationRefines | jit-native/src/lib.rs:790-1492 | Block-structured code leaves with a value and memory if and only if flat pc stepping does, and never runs off a block |
| Blocks.AllPlaced | jit-native/src/lib.rs:858-866 | The emission loop puts every instruction in one block at one position, and later emission never disturbs it |
| Blocks.RunOn | jit-native/src/lib.rs:972-986 | Every flat run has a block run through the same pcs in the same order |
| Blocks.RunBack | jit-native/src/lib.rs:972-986 | Every block run that leaves follows a flat run that leaves with the same value and memory |
| Blocks.JumpLands | jit-native/src/lib.rs:1229-1251 | Blocks are entered only at leaders: a jump's block is the block of an instruction start |
| Blocks.EndedHasLeader | jit-native/src/lib.rs:805-839 | An instruction that ends its block is followed by a leader |
| Compile.CompileIntBlock | jit-native/src/lib.rs:790-1492 | The imperative translator (leader set, block numbering, current block, terminated flag) produces the specified translation or fails where it fails, which is where `Complete.TranslatesExactly` says |
| Compile.FindLeaders | jit-native/src/lib.rs:805-839 | Pass 1 collects exactly the leaders, or refuses an unknown or cut-off instruction |
| Compile.NumberBlocks | jit-native/src/lib.rs:858-866 | One block for each leader within the code, in ascending order |
| Compile.EmitCode | jit-native/src/lib.rs:972-1446 | The emission loop over a mutable builder is the recursive specification |
| Compile.FunctionBuilder.EmitInstruction | jit-native/src/lib.rs:987-1439 | Emitting one instruction appends exactly the specified IR and reports whether the block ended |
| Compile.FunctionBuilder.EmitBoxedArith | jit-native/src/lib.rs:688-762 | The guarded two-armed operator with its product and float arms |
| Compile.FunctionBuilder.EmitMod | jit-native/src/numeric.rs:130-191 | The guarded SMI remainder |
| Instructions.RunInstr | jit-native/src/lib.rs:987-1439 | Running the IR of any one instruction does what the flat machine's step does: same next pc, same memory, same exit |
| Fragments.RunBoxedArith | jit-native/src/lib.rs:688-762 | The IR of a boxed ADD, SUB, MUL, INC or DEC delivers the specified result, or an exact-pc deopt, whatever the operands |
| Fragments.RunBoxedMod | jit-native/src/numeric.rs:130-191 | The IR of MOD delivers the truncated remainder with its sign of zero, or an exact-pc deopt |
| Fragments.RunAfterHelper | jit-native/src/lib.rs:1252-1290 | After a helper call the flag decides: on, out as a throw, or out as an exact-pc deopt |
| Fragments.EvalWide | jit-native/src/lib.rs:1044-1056 | 128-bit arithmetic on 64-bit operands never wraps |
| Fragments.RunGuardI128 | jit-native/src/lib.rs:550-574 | The band guard leaves exactly when the wide result is outside [-2^53, 2^53] and otherwise narrows without loss |
| Float64.BandIsExact | jit-native/src/lib.rs:534-549 | Every integer of magnitude at most 2^53 survives rounding to 53 bits |
| Float64.BandIsTight | jit-native/src/lib.rs:534-549 | 2^53 + 1 does not: the bound cannot be raised |
| Float64.AddOfInts | jit-native/src/lib.rs:1044-1056 | Number addition of band integers is integer addition, with the sign of a zero sum |
| Float64.MulNum | jit-native/src/lib.rs:1044-1056 | Number multiplication of integers is integer multiplication up to the sign of zero, when the product is in the band |
| Float64.DecodeEncode | jit-native/src/lib.rs:634-681 | A double with at most 53 significant bits is recovered from its 64-bit pattern |
| NanBox.SmiRoundTrip | jit-native/src/lib.rs:586-600 | Boxing and unboxing an int32 is the identity and gives an SMI word |
| NanBox.DoubleRoundTrip | src/value/value.zig:823-828 | Boxing and unboxing every double pattern below 0xFFFC000000000000 is the identity and gives a double word |
| NanBox.WordKinds | jit-native/src/lib.rs:586-632 | SMIs, doubles and words with the top 15 bits clear are disjoint and told apart by the two mask tests |
| NanBox.MakeInt | src/value/value.zig:539-543 | A band integer boxes as an SMI if and only if it fits int32, and decodes to itself |
| NanBox.MakeNegZero | src/value/value.zig:539-543 | -0 keeps its own word, apart from the SMI 0 |
| Operators.SignedZeroExact | jit-native/src/numeric.rs:103-191 | ADD, SUB, MUL, MOD and NEG on all int32 operands give the Number with its sign of zero, and deopt exactly when the result leaves the band or a divisor is 0 |
| Operators.BoxedBinaryAgrees | jit-native/src/lib.rs:688-762 | Whenever the boxed lane finds the result of a binary operator it is the interpreter's, bit for bit |
| Operators.BoxedUnaryAgrees | jit-native/src/numeric.rs:49-128 | The same for the unary operators |
| Operators.ArithAgrees | jit-native/src/lib.rs:1035-1057 | A guarded ADD, SUB or MUL that stays in the band is the Number result up to the sign of zero |
| Operators.IncAgrees | jit-native/src/lib.rs:1131-1144 | The same for INC and DEC |
| Operators.BitsAgree | jit-native/src/bitwise.rs:72-100 | Without any guard the native bitwise operators are ToInt32 and ToUint32 followed by the operator, with the shift count modulo 32 |
| Operators.BitsRange | jit-native/src/bitwise.rs:137-171 | A bitwise result is an int32, or a uint32 for the unsigned shift |
| Operators.NotAgrees | jit-native/src/bitwise.rs:102-135 | Xor with all ones is `-1 - x` on 32 bits |
| Operators.CompareAgrees | jit-native/src/lib.rs:1164-1228 | Comparing integers compares the Numbers they stand for |
| Operators.TruthAgrees | jit-native/src/lib.rs:1236-1251 | Testing a raw integer or truth value against 0 is ToBoolean of the word it stands for |
| Operators.BoxIntIsMake | jit-native/src/lib.rs:601-626 | `emit_box_i64` is `makeNumber` on the band |
| Operators.BoxBitsIsMake | jit-native/src/lib.rs:646-681 | `emit_box_f64` is `makeNumber` on every double |
| Operators.FloatBitsIs | jit-native/src/lib.rs:634-645 | `emit_to_f64` decodes to the Number of the word |
| Operators.ModAgrees | jit-native/src/numeric.rs:130-191 | The native remainder of SMIs is the Number remainder, -0 included |
| Operators.EncodeRoundTrip | jit-native/src/lib.rs:634-681 | Encoding and decoding any value a double can hold is the identity, subnormals included |
| Compiled.Sim | src/bytecode/compiler.zig:731-958 | Compiler correctness: the code of any modelled expression, anywhere in a function, gives the value, variables and events of left-to-right evaluation in its register, or the error, or arrives at the pad of its optional chain, and changes no lower register |
| Compiled.SimLogical | src/bytecode/compiler.zig:1203-1234 | Short-circuit forms evaluate the right side exactly when the jump is not taken |
| Compiled.SimCond | src/bytecode/compiler.zig:1236-1281 | The conditional evaluates its test and exactly one branch |
| Compiled.SimCompound | src/bytecode/compiler.zig:1387-1430 | Compound assignment reads, evaluates, combines and stores in that order |
| Compiled.SimLogicalAssign | src/bytecode/compiler.zig:1869-1908 | Logical assignment stores exactly when its jump is not taken |
| Compiled.SimPostfix | src/bytecode/compiler.zig:2356-2423 | A postfix update yields the old value made numeric and stores the new one |
| Compiled.SimChain | src/bytecode/compiler.zig:2067-2090 | A chain whose link short-circuits gives undefined in the base register, otherwise the links' value |
| Compiled.SimAssignMember | src/bytecode/compiler.zig:1327-1357 | A member assignment evaluates base, key and value in order, stores once and yields the value |
| Compiled.SimCall | src/bytecode/compiler.zig:3098-3163 | The callee, then the arguments in consecutive registers, then the call |
| Codegen.GenFacts | src/bytecode/compiler.zig:731-958 | The code of every expression has its computed size, so direct displacements are right; the pool only grows, by constants of this world; the result register is counted |
| Guards.GenFills | src/bytecode/compiler.zig:303-310 | Patching the recorded guards of any expression's code to any pad gives the code emitted for that pad and changes nothing else |
| Guards.GuardsInside | src/bytecode/compiler.zig:2067-2090 | The guards an expression records lie within its own code, so an inner chain's guards never reach an outer pad |
| ExprLaws.PeepholeExact | src/bytecode/compiler.zig:1291-1311 | Replacing `x + 1` by an increment, or `x - 1` by a decrement, keeps value, variables and everything user code does if and only if: x is undefined, null, a boolean or a number; or a text, for a decrement; or an object whose conversion gives no BigInt (decrement) or comes to the same under both hints (increment); never a BigInt or a symbol |
| ExprLaws.PeepholeOnText | src/bytecode/compiler.zig:1291-1311 | The failing input: on the text "5" the increment gives 6 and the addition "51", while decrement and subtraction both give 4 |
| ExprLaws.EvalKept | src/bytecode/compiler.zig:1291-1311 | Evaluation with the peephole equals plain evaluation for every expression in whose evaluation each step reads a value that may be stepped |
| ExprLaws.ChainMeaning | src/bytecode/compiler.zig:2067-2090 | If the base of some optional link is nullish the chain is undefined, in the state before that link, and no later link or key is evaluated; otherwise it is the plain member chain |
| ExprLaws.LinkedIsFollow | src/bytecode/compiler.zig:1983-2065 | Evaluating a chain of links is evaluating its base and following the links one by one |
| FnCompilers.FnCompiler.CompileExpr | src/bytecode/compiler.zig:731-958 | The mutable compiler emits exactly the specified code, returns the register it started at, leaves the pointer one above, counts the registers used, and fails exactly when the pool is full |
| FnCompilers.FnCompiler.CompileUnary | src/bytecode/compiler.zig:960-1126 | Operand and operator in the same register |
| FnCompilers.FnCompiler.CompileBinary | src/bytecode/compiler.zig:1128-1201 | Operands in two registers, the result in the first |
| FnCompilers.FnCompiler.CompileLogical | src/bytecode/compiler.zig:1203-1234 | The jump past the right side, patched to its end |
| FnCompilers.FnCompiler.CompileCond | src/bytecode/compiler.zig:1236-1281 | Both jumps of a conditional, patched; both branches land in one register |
| FnCompilers.FnCompiler.CompileAssign | src/bytecode/compiler.zig:1289-1368 | Assignment to a variable, and the increment peephole |
| FnCompilers.FnCompiler.CompileCompound | src/bytecode/compiler.zig:1387-1430 | Compound assignment to a variable |
| FnCompilers.FnCompiler.CompileLogicalAssign | src/bytecode/compiler.zig:1869-1908 | Logical assignment to a variable |
| FnCompilers.FnCompiler.CompileMember | src/bytecode/compiler.zig:1983-2065 | Member reads, with the guard of an optional link |
| FnCompilers.FnCompiler.CompileChain | src/bytecode/compiler.zig:2067-2090 | A nested list of guards, patched to the pad behind the chain; the outer list is restored |
| FnCompilers.FnCompiler.CompileCall | src/bytecode/compiler.zig:3098-3163 | Callee and arguments in consecutive registers, the result in the callee's |
| FnCompilers.FnCompiler.EmitOptionalGuard | src/bytecode/compiler.zig:303-310 | A guard is emitted and recorded exactly inside a chain |
| FnCompilers.FnCompiler.AllocReg | src/bytecode/compiler.zig:228-238 | The register stack pointer and its high-water mark |
| Chunk.BuilderRun | src/bytecode/chunk.zig:18-146 | For every interleaving of emits, constants and patches at distinct placeholders: unless a jump overflowed every patched operand decodes to its target, the line table is as long as the code, every index handed out still denotes an equal constant, and the pool has no duplicates |
| Chunk.OverflowSticks | src/bytecode/chunk.zig:113-137 | `finalize` fails if and only if some patch in the run did not fit 16 bits |
| Chunk.I16RoundTrip | src/bytecode/chunk.zig:113-131 | The two bytes written for a displacement decode to it |
| Chunk.PoolKeeps | src/bytecode/chunk.zig:62-95 | The index returned for a constant denotes an equal one, the pool only grows and stays without duplicates |
| Chunk.ChunkBuilder.AddConst | src/bytecode/chunk.zig:62-95 | The scan reuses the first equal number or string, else appends; it fails exactly at the 16-bit limit |
| Chunk.ChunkBuilder.Patch | src/bytecode/chunk.zig:113-131 | A displacement is written in place, clamped and flagged when it does not fit |
| Snapshot.RoundTrip | src/bytecode/snapshot.zig:170-274 | For every function tree within the field widths and with supported constants, reading its image gives the same tree at every depth, whatever follows the image |
| Snapshot.PrefixTruncated | src/bytecode/snapshot.zig:107-151 | Every strict prefix of an image is rejected as truncated |
| Snapshot.SuffixIgnored | src/bytecode/snapshot.zig:206-241 | Bytes appended after anything but a cut-off image, well-formed or not, do not change the result, and reading never passes the end |
| SnapshotFormat.SampleImage | src/bytecode/snapshot.zig:15-22 | The image of a function with a constant of every kind, byte by byte |
| SnapshotFormat.HeaderErrors | src/bytecode/snapshot.zig:206-214 | Too short, wrong magic and wrong version are told apart, in this order |
| SnapshotFormat.TagErrors | src/bytecode/snapshot.zig:39-46 | What each tag without a payload reads as, and that an unknown one is refused |
| SnapshotFormat.CanonicalIs | src/value/value.zig:539-543 | A number constant is read back with its bits, every NaN as the quiet one |
| SnapshotIO.Serialize | src/bytecode/snapshot.zig:170-204 | The recursive writer gives the image, and fails with UnsupportedConstant if and only if some constant in the tree has no image |
| SnapshotIO.Deserialize | src/bytecode/snapshot.zig:206-274 | The cursor-based reader gives the specified result or the specified error on every input |
| SnapshotIO.SaveAndRestore | src/bytecode/snapshot.zig:170-274 | Writing and then reading gives the function back |
| SnapshotIO.Reader.ReadFunction | src/bytecode/snapshot.zig:216-274 | The recursive reader ends because every nested function consumes input |
| SnapshotIO.Writer.WriteFunction | src/bytecode/snapshot.zig:180-204 | The writer appends exactly the encoding of the function and its children |
| Ranges.Merge | tools/gen_unicode_props.py:46-56 | The in-place merge gives sorted, disjoint, non-adjacent ranges covering the same code points |
| Ranges.CanonicalUnique | tools/gen_unicode_props.py:46-56 | There is only one such list for a set of code points |
| Ranges.SharedTable | tools/gen_unicode_props.py:87-93 | Two merged lists are equal if and only if the originals cover the same code points |
| Ranges.Share | tools/gen_unicode_props.py:87-93 | Each distinct list is one table, numbered in order of first use; two properties share a table if and only if their lists are equal |
| PropertyCache.FastGet | src/jit/int_fn_jit.zig:85-133 | In any heap, however it changed since the cache was filled and whatever objects are on the chain, a hit is what the full prototype-chain walk returns; it hits if and only if the cache knows where to look and a data value is there |
| PropertyCache.FastSet | src/jit/int_fn_jit.zig:156-177 | A store hit is the ordinary set of an own writable data property, and happens if and only if the receiver is ordinary, the key is not `length`, the cache knows the slot, and the slot holds data that may be written |
| PropertyCache.SetOwnExact | src/jit/int_fn_jit.zig:165-175 | A set stores if and only if the key's slot holds data and may be written, and changes that slot and nothing else |
| PropertyCache.FoundAt | src/jit/int_fn_jit.zig:85-133 | A walk that meets an object with the key gives the getter of an accessor or the value of a data slot |
| PropertyCache.FoundFrom | src/jit/int_fn_jit.zig:85-133 | A walk that gives a value has met a data slot that holds it, one that gives a getter an accessor, one that gives nothing no object with the key |
| PropertyCache.ChainGet | src/jit/int_fn_jit.zig:105-131 | When every guarded object is still of its recorded shape the walk ends at the recorded holder |
| PropertyCache.StoredIsRead | src/jit/int_fn_jit.zig:156-177 | After a store a read from a plain receiver gives the new value wherever its walk meets the object, and the old one everywhere else |
| PropertyCache.InlineCache.Record | src/vm/ic.zig:77-139 | Recording adds exactly the new entry through all four states and keeps every entry right; a different key empties the site |
| PropertyCache.InlineCache.ProtoRecord | src/vm/ic.zig:38-50 | Recording a chain replaces it, unless it is empty, too long or of another key |
| PropertyCache.InlineCache.Lookup | src/vm/ic.zig:52-75 | A lookup answers exactly when an entry of that key and shape is there |
| AnnexB.LexicalIsDeclared | src/bytecode/compiler.zig:532-584 | The lexical names of a statement are those of the `let`, `const` and class declarations that steps staying in its scope lead to |
| AnnexB.BlockShadows | src/bytecode/compiler.zig:417-520 | Nothing recorded in a block has the name of one of its `let`s, nor, unless it is one of the block's own functions, of one of these |
| AnnexB.HeadsShadow | src/bytecode/compiler.zig:417-520 | So for the cases of a switch and the head of a loop |
| AnnexB.WalkIsEligible | src/bytecode/compiler.zig:417-520 | The walk records a declaration if and only if some path from the root reaches it, nested, without meeting a binder of its name |
| AnnexB.NamesAreSites | src/bytecode/compiler.zig:349-354 | The names to hoist are the names of the recorded sites, each once |
| AnnexB.Walker.Collect | src/bytecode/compiler.zig:417-520 | The backtracking walk records exactly the specified sites and names and restores the blocked list on every exit |
| AnnexB.Walker.CollectLexical | src/bytecode/compiler.zig:532-584 | The lexical names of a statement are added to the blocked list, each once |

## Left out

- Emit.Defined: Cranelift itself (instruction selection, its verifier, ISA and module set-up) is not modelled; its refusal of malformed functions is modelled only as "every block that is named was filled".
- Interp.Host: user code reached from an operation (getters, proxies, callees, conversions of objects, comparisons and `**` on other than numbers) is an answer to an event; the garbage collector, allocation failure and the handle stack do not appear.
- Interp.CallEnv: `this`, `with` objects inherited from the definition site, a direct `eval` in a closure (which may read any name), and the link between a sloppy arguments object and the parameters (src/vm/bc_vm.zig:4571-4662) are not modelled; the arguments object is a value of its own.
- BoxedLane.SafeRun: private names `#x` are excluded, not modelled; variables captured from outside are constant during a run; a callee that writes one while native code runs is not covered, because native code reads them on entry.
- BoxedLane.BoxedLaneCorrect: covers runs whose accesses are safe; `BoxedLaneExact` and `UnsafeParts` cover the others up to the step at which they leave them, and what native code does after it is not described further.
- IntLane.IntLaneCorrect: stated up to the sign of zero, and for functions whose returned registers hold numbers; `IntLaneExact` says what holds without the second premise.
- Float64.DecodeEncode: the payload and sign of a NaN are not modelled; every operator that gives a NaN gives the quiet one, as `makeNumber` purifies it.
- PropertyCache.FastGet: mapped arguments objects, typed arrays and module namespaces have rules of their own in `getProp` (src/vm/bc_vm.zig:2878-2935), yet the helper lets them onto the fast path; the model calls them ordinary, so a hit is the ordinary lookup and not that of `getProp` for them. Arrays, proxies, `length` and `size` leave for the full machinery at once, which is not modelled; nor is a failed allocation of the megamorphic map.
- Snapshot.SuffixIgnored: an unknown value tag is an error of the model (the source casts it to an enum, which is undefined), and a malformed count that asks for a huge allocation is not distinguished from a truncated image.
- Snapshot.RoundTrip: lengths beyond the 16- and 32-bit fields are excluded by `Fits`; the source's integer cast traps on them.
- FnCompilers.FnCompiler.CompileExpr: needs at most 255 registers (the source's 8-bit register counter traps above that).
- Compiled.Sim: method calls, optional calls of members, spread, direct `eval`, `super`, private names, `await`, `yield*`, destructuring, object and array literals, template and regular-expression literals, function expressions, `delete`, dynamic scope (`with`), and compound, logical or update assignment to members are not among the modelled expressions.
- Expr.World: how a numeric property key is spelled is a parameter (`numText`), shared by evaluation and code; the compiler's spelling (src/bytecode/compiler.zig:2034-2036, format "{d}") differs from ToString for numbers such as 1e21, and that difference is not shown.
- Chunk.Finished: the line table is modelled, but not which source position an instruction carries.
- AnnexB.Stmt: the cases of a switch are one list and a declaration carries an identity instead of its syntax node.
- Statement lowering other than `return e;`, generators, async functions, modules and the disassembler would add no harder properties.
- On-stack replacement, the loop compiler and the fixed demo kernels are special cases of the translator.
- Tail calls: `return f(x);` in strict code compiles to a tail call and is not part of `Pipeline`.

# AGL

AGL is a small language with a lexer, a Pratt parser, a scope checker, a
bytecode compiler that patches jumps in place, a stack machine, a mark-and-sweep
collector and a JSON codec.  This project models those parts in Dafny and proves
what they do for every program, every run and every input.

Two views of each part stand side by side: a function that says what is
computed, and a class or method in the form of the C code (arrays written in
place, counters, loops) that is proved to compute it.  The theorems are about
the functions, and hold of the code through the methods' contracts.  What the
functions themselves compute is fixed by laws that name none of them: which values
an if takes for false, what each operator yields, the rows of operators, the words of
the lexer, the texts of JSON, the builtins and their numbers of arguments.

| files | part |
|---|---|
| Ast, Values, Semantics | the tree, values and bindings, and what a program means: a big-step semantics with fuel, block scoping for statements, the tree walker's operators for expressions |
| Operators, Meaning | what operators yield, operand by operand, and what programs show: branches, loops, scopes, calls, closures |
| Bytecode, Chunk, CodeGen, Patching, Limits, LoopSites, Layout, Compiler | instructions and their bytes, the growable chunk, the code of every construct, filling the open jumps of breaks, compile errors and exactly when there is one, and the compiler itself |
| Machine, Vm | the machine step by step, and its dispatch loop over the value array |
| Reach, Fragment, Simulation, Correctness, Pipeline | the proof that compiled code does what the source means |
| TreeWalk | the tree-walking evaluator on expressions without user calls, and when it agrees with the machine |
| Shapes, Orderly, Verified, Checked, Depth | a bytecode verifier (one stack shape for every instruction, every jump on an instruction), the proof that code which passes it never gets stuck, that compiled code passes it, and how deep calls bound its stack |
| Gc, GcRuns | the object graph, marking, sweeping, what survives, and the cost of collecting and of not collecting; collections in the course of calls |
| Json, JsonParser, JsonPrinter, JsonLaws, JsonBuiltins | the JSON codec (RFC 8259, sections 6 and 7) and its round trip, through the builtins as well |
| JsonGrammar, JsonTexts, JsonErrors | the texts the codec accepts, as derivations, the value of each, and what it answers where a text breaks off |
| Strings | split, join and replace with their buffers |
| Imports, ImportErrors | loading a module graph depth first, and when it succeeds |
| Sema, WellScoped, SemaSound, SemaLimits | the scope checker, exactly what it accepts, its soundness, and where it ends |
| Tokens, Lexing, Lexer, LexLaws, LexTables | the lexer, the tilings of a source it accepts, and its words, symbols and line breaks |
| Pratt, Parser, Grammar, ParserLaws, Precedence, ExprPrinter, SourceText | the expression parser, the grammar it accepts, the rows of its operators, minimal parentheses, and the way from a tree to source text and back |
| Places | sequences that stand in others |

The main results are `Correctness.CompilerCorrect` and `MachineCorrect` (the
compiler preserves meaning, both ways, over back-patched jumps, iterator state
and calls), `NeverOverflows` and `StackDepth.DepthBoundsStack`,
`CallsAreBalanced` and `BlocksAreBalanced`,
`CheckedCode.ProgramChecks`, `OrderlyNeverStuck`, `JumpsLand` and `SameHeight`
(stack discipline and jumps of all compiled code but that of `&&` and `||`),
`TreeWalk.EvaluatorsAgree` and `WalkAgreesIff`, `Gcs.Gc.Collect`, `CollectVm`,
and `SweepsArePaid`, `GcRuns.KeepsAllIff` and `NothingLost`,
`JsonLaws.ParseUndoesShow` and `DelimitersDoNotMatter`,
`JsonBuiltins.BuiltinsRoundTripIff`, `ParserLaws.ParsesWhatIsDerived`,
`LexLaws.LexesExactlyTilings`, `SourceTexts.SourceRoundTrip`,
`SemaSound.CheckerSound`, `Imports.LoadsWhatIsPerformed` and `AllLoadedIff`, and
the laws of `Strings`.

Those that fix what all the others share are `Meanings.IfTakes` and `ChooseShows`
(the branch a condition takes, down to what the machine shows), `Operators`,
`Gcs.SpaceBound` (a due collection runs), `JsonTexts.ParsesExactlyTexts`,
`Precedence.TwoOperators` and `ParsesByRows`, `WellScoped.AcceptsExactlyWellScoped`,
`ImportErrors.LoadsIff`, `LoopSites.CompilesIff` and `LexTables.BreaksExactly`.

`dafny verify dfyconfig.toml` checks everything.

## Where a law holds only under a condition

- `&&` and `||` compile to code that never pushes its result
  (`Correctness.LogicalIsUnbalanced`), so the compiler theorems exclude them.
- A break or continue in a nested block restores the loop's bindings if and only
  if no outer block of the loop body has declared any (`Simulation.ExitLeaves`).
  Its stack and its jump are sound everywhere (`CheckedCode.CheckExit`).
- The tree walker and the machine agree on an expression without user calls if
  and only if it is evaluated in a call or comes by no `?` on an err
  (`TreeWalk.WalkAgreesIff`): outside of calls the tree walker takes nil for it and
  goes on, so that `[err(1)?, 1 / 0]` is a division error there and a returned err
  in the machine (`TreeWalk.TopLevelTryGoesOn`).
- They agree on builtin calls of up to 32 arguments; past that the tree walker does
  not evaluate the others, and an undefined name as the 33rd argument is an error
  in the machine only (`TreeWalk.LateArgument`).
- A call binds all its parameters if and only if the 256 slots have room; the
  machine drops the others without an error, where the tree walker reports one
  (`Values.CallBindsAll`).
- join undoes split, and replace is split and join, if and only if no part of two
  bytes or more begins with a quote (`Strings.JoinUndoesSplit`,
  `Strings.ReplaceIsBuiltins`).
- A JSON string comes back unchanged if and only if none of its characters is
  printed as `\u`: the decoder yields a question mark and reads the last hex
  digit again (`JsonLaws.RereadIsSame`).
- The builtin json_parse takes the quotes off its argument first, so that it reads
  what json_stringify printed if and only if the text does not begin with a quote
  (`JsonBuiltins.BuiltinsRoundTripIff`): a string or a function at the top is not read
  back.
- A declaration keeps the checker in step with the environment if and only if the
  innermost scope holds fewer than 256 variables
  (`SemaLimits.DeclKeepsAgreeIff`); `SemaLimits.WholeProgramMisjudged` is an accepted
  program that assigns to a `let`.  The checker also accepts a builtin used as a
  plain value (`SemaLimits.BuiltinAsValue`).
- A lambda made where nothing is bound captures nothing and runs in its caller's
  bindings, which may leave no room for its parameters: `SemaLimits.RunsOutAccepted`
  and `RunsOutFails` are a program that the checker accepts and whose run reports an
  undefined variable.  Lambdas that capture something have room when captured
  bindings and parameters are at most 256, and `SemaSound.CheckerSound` covers them.
- The collector keeps a frame's closure but not what the closure captured.  It keeps
  exactly what its roots reach if and only if, in the heap before the collection, the
  captured values are reached without help of a frame's function
  (`GcRuns.KeepsAllIff`).  They are as long as the closure's body gives no captured
  variable another value (`GcRuns.NothingLost`), and only such an assignment unbinds one
  (`GcRuns.AssignKeepsIff`, `GcRuns.MoveKeeps`).  After one, `GcRuns.FrameKeepsFunctionOnly`
  loses the captured array, and when the call returns the caller's own variable for the
  closure leads to a swept object (`GcRuns.ReturnBringsItBack`).
- A load that ends without an error has loaded all modules that imports reach if
  and only if no body that was run ends, by a top-level `return` or a `?` on an err,
  before an import of a module not loaded otherwise (`Imports.AllLoadedIff`);
  `Imports.ReturnSkipsImport` is a body for which it has not.

## Where the code and its documentation differ

The model follows the code.

- A string is documented to be truthy when it is not empty (the table of types of
  the language specification); is_truthy looks at the raw length, so the literal
  `""`, whose quotes are kept, is truthy (src/runtime.c:131).
- The loop variable of for is documented not to be mutable; the compiler defines it
  with DEFINE_VAR (src/compiler.c:445-449).
- The documented precedence table leaves out the postfix `?`, which the parser gives
  the precedence of calls (src/parser.c:75), and lists assignment, which is no
  expression.
- The comment above the lexer's rule for newlines does not list `?`, after which a
  line break also ends a statement (src/lexer.c:58-83).

## Model

| member | source | states |
|---|---|---|
| `Ast.BuiltinIdIs` | src/compiler.c:7-13 | a call compiles to a builtin call exactly for the listed names, and the id is the name's place in the list |
| `Values.FindVar` | src/runtime.c:53-60 | the innermost binding of a name wins: the index found holds the name and no later one does, and nothing is found only when no binding has it |
| `Values.AssignIs` | src/runtime.c:62-71 | assignment changes the value of the innermost binding of the name and nothing else; it fails exactly when there is none or when that one is immutable |
| `Values.DefineIs` | src/runtime.c:42-51 | a definition hides what the name stood for, leaves other names alone, is undone by cutting back, and fails exactly at 256 bindings |
| `Values.CallBindsAll` | src/vm.c:186-197 | a call binds all its parameters exactly when the 256 slots have room for them, and otherwise silently drops the rest |
| `Values.FindPairIs` | src/vm.c:570-579 | a key lookup finds the first pair with the key, and nothing exactly when no pair has it |
| `Bytecode.DecodeEnc` | src/vm.c:68-72 | every instruction whose operands fit their fields is read back from its bytes, wherever they stand, whatever follows |
| `Bytecode.WordU16` | src/vm.c:68-72 | two bytes written for a 16-bit number are read back as the number |
| `Bytecode.U16Mod` | src/chunk.c:25-28 | of a greater number only its remainder modulo 65536 is written |
| `Bytecode.LowFirst` | src/chunk.c:25-28 | a 16-bit number is written with its low byte first |
| `Bytecode.BytesAlone` | src/chunk.h:7-81 | the byte of every instruction without operands |
| `Bytecode.BytesOfOperators` | src/chunk.h:14-28 | the byte of every operator |
| `Bytecode.BytesOfWords` | src/chunk.h:7-81 | the bytes of every instruction with one 16-bit operand |
| `Bytecode.BytesOfCounts` | src/chunk.h:7-81 | and of those with a count of one byte |
| `Chunks.Patch` | src/chunk.c:49-54 | rewriting an offset changes those two bytes and no others |
| `Chunks.Chunk.constructor` | src/chunk.c:4-7 | an empty chunk |
| `Chunks.Chunk.Write` | src/chunk.c:16-23 | appends one byte, growing the buffer when it is full; earlier bytes and the constants stay |
| `Chunks.Chunk.WriteU16` | src/chunk.c:25-28 | appends the two bytes of a number |
| `Chunks.Chunk.AddConst` | src/chunk.c:30-38 | appends a constant and returns its index; the code stays |
| `Chunks.Chunk.EmitJump` | src/chunk.c:40-47 | appends an opcode and a placeholder and returns where the placeholder stands |
| `Chunks.Chunk.PatchJump` | src/chunk.c:49-54 | the jump at the position now leads to the end of the code written so far; nothing else changes |
| `Chunks.Chunk.EmitLoop` | src/chunk.c:56-60 | appends a jump back to the given start, counted from behind the jump |
| `CodeGen.LenS` | src/compiler.c:344-624 | how long a statement's code is does not depend on where its jumps lead, so code can be laid out before its jumps are known |
| `CodeGen.LenBlock` | src/compiler.c:536-550 | the same for a block |
| `CodeGen.LenIf` | src/compiler.c:388-401 | the same for an if chain |
| `Patching.AimAllAppend` | src/compiler.c:428-432 | break positions collected in two parts can be patched one part after the other |
| `Patching.FillS` | src/compiler.c:500-511 | patching the recorded break positions of a statement, and only those, turns its code with open breaks into its code with the breaks aimed at the loop's end |
| `Patching.FillSs` | src/compiler.c:500-511 | the same for a list of statements |
| `Patching.FillB` | src/compiler.c:536-550 | the same for a block |
| `Patching.FillIf` | src/compiler.c:388-401 | the same for an if chain with all its arms |
| `Limits.CountSs` | src/compiler.c:505-508 | a loop body records at most one patch position for each of its breaks |
| `LoopSites.CompilesIff` | src/compiler.c:403-534 | a program is compiled if and only if every break and continue stands in a loop of its function and no loop within 16 others, and otherwise the error is that of the first place where this fails |
| `LoopSites.BreaksUpTo32` | src/compiler.c:505-509 | a loop of n breaks is one whose breaks are all patched if and only if n is at most 32 |
| `Compilers.Compiler.constructor` | src/compiler.c:632-640 | a compiler with an empty chunk and no open loop |
| `Compilers.Compiler.CompileExpr` | src/compiler.c:80-342 | fails exactly with the first error of the expression, or appends its code and its constants and changes nothing else |
| `Compilers.Compiler.CompileLogical` | src/compiler.c:127-145 | the code emitted for && and \|\|, extra POP included |
| `Compilers.Compiler.CompileCall` | src/compiler.c:171-196 | builtin calls by id, other calls with callee and arguments in order |
| `Compilers.Compiler.CompileStruct` | src/compiler.c:226-242 | names and values in turn, then the type name and the field count |
| `Compilers.Compiler.CompileLambda` | src/compiler.c:244-283 | a function constant with its own chunk and a CLOSURE of it |
| `Compilers.Compiler.CompileFunction` | src/compiler.c:552-570 | the chunk of a function body, ended by RETURN_NIL |
| `Compilers.Compiler.CompileStmt` | src/compiler.c:344-624 | fails exactly with the statement's first error, or appends its code and constants, adds its breaks to the innermost loop and counts what it declares |
| `Compilers.Compiler.CompileBreak` | src/compiler.c:487-511 | pops the innermost block's variables and the loop variable, emits an open jump and records it; an error outside loops |
| `Compilers.Compiler.CompileContinue` | src/compiler.c:513-534 | the same with a jump back to the loop's start |
| `Compilers.Compiler.CompileIf` | src/compiler.c:388-401 | both jumps of an if chain are patched to the arms' ends |
| `Compilers.Compiler.PatchBreaks` | src/compiler.c:428-432 | aims every recorded break at the end of the code |
| `Compilers.Compiler.CompileWhile` | src/compiler.c:403-433 | the finished code of a while loop, its breaks patched, or too many nested loops |
| `Compilers.Compiler.CompileFor` | src/compiler.c:435-485 | the finished code of a for loop, with ITER_NEXT's exit and all breaks before the cleanup |
| `Compilers.Compiler.CompileBlock` | src/compiler.c:536-550 | the block's statements and the pop of what they declared; the enclosing count is put back |
| `Compilers.Compiler.Compile` | src/compiler.c:626-654 | compiling succeeds exactly for programs without a compile error, and then gives the program's code and constants |
| `Machine.MoreFuel` | src/vm.c:238-848 | a finished run is the same with more fuel |
| `Machine.StepKeepsFrames` | src/vm.c:245-845 | no instruction of a chunk touches a frame record |
| `Machine.InvokeDepth` | src/vm.c:169-173 | only CALL enters a function, and only while a frame record is left |
| `Machine.FramesKept` | src/vm.c:151-234 | a run that halts leaves every frame record (function, base, binding count, saved bindings) it began with as it was, and no others, whatever it called |
| `Machine.BackInCaller` | src/vm.c:211-227 | the base read back from the frame record is the caller's stack height, and so a return restores the caller |
| `Fragment.GoodEval` | src/interpreter.c:28-505 | evaluation keeps values and bindings within the fragment |
| `Fragment.SizedEval` | src/interpreter.c:28-505 | an expression keeps the number of bindings |
| `Fragment.SizedExecBlock` | src/compiler.c:536-550 | a block ends with as many bindings as it began with, the count its POP_SCOPE restores |
| `Fragment.SizedApply` | src/vm.c:175-227 | a call keeps the number of bindings, and a closure call every binding |
| `Simulation.BinaryAgree` | src/vm.c:259-400 | the machine's binary operators and the tree walker's give the same value or the same error on all operands |
| `Simulation.UnaryAgree` | src/vm.c:328-339 | so do the unary operators |
| `Simulation.IndexAgree` | src/vm.c:564-588 | so does indexing |
| `Simulation.UnzipFlatten` | src/vm.c:634-655 | keys and values pushed in turn are popped back as the same pairs |
| `Simulation.SimE` | src/compiler.c:80-298 | the code of an expression takes the machine, on any stack, to what the expression means |
| `Simulation.SimCall` | src/vm.c:498-526 | the same for calls and builtin calls |
| `Simulation.SimInvoke` | src/vm.c:151-234 | a call of a compiled function does what applying it means, however its body ends |
| `Simulation.SimS` | src/compiler.c:344-624 | the code of a statement does what the statement means, with break and continue leading to the loop's ends |
| `Simulation.SimIf` | src/compiler.c:388-401 | the same for an if chain |
| `Simulation.SimWhile` | src/compiler.c:403-433 | the same for a while loop over any number of turns |
| `Simulation.SimFor` | src/vm.c:742-756 | the same for the turns of a for loop, over the iterator state on the stack |
| `Simulation.SimForStmt` | src/compiler.c:435-485 | the same for a whole for statement |
| `Simulation.SimB` | src/compiler.c:536-550 | the same for a block |
| `Simulation.ExitLeaves` | src/compiler.c:487-534 | a compiled break or continue restores the loop's binding count if and only if no outer block of the loop body has declared anything |
| `Correctness.CompilerCorrect` | src/compiler.c:626-654 | compiled code does what the source means: same value and final bindings, or same error, or both run on; only a full value stack can come between |
| `Correctness.MachineCorrect` | src/vm.c:238-848 | whatever a finished run of compiled code shows is what the source means |
| `Correctness.NeverOverflows` | src/vm.c:44-51 | a program without user calls whose stack need, computed from its tree, is within 1024 never overflows the stack |
| `Correctness.CallFree` | src/interpreter.c:28-505 | an expression with a bounded stack need ends in a value, an error or an early return |
| `Correctness.MachineEvaluates` | src/vm.c:238-848 | the machine pushes the value an expression means, leaving the rest of the stack alone, or raises its error, or returns its err |
| `Operators.DivisionIs` | src/interpreter.c:112-127 | division cuts toward zero, and the remainder has the sign of the dividend |
| `Operators.DivisionIsOne` | src/interpreter.c:112-127 | there is only one such quotient and remainder |
| `Operators.IntOperators` | src/interpreter.c:106-136 | sum, difference, product, quotient, remainder and comparisons of all integers, and division by zero |
| `Operators.FloatOperators` | src/interpreter.c:138-174 | each operator on floats is the one of its name, an integer beside a float counting as one |
| `Operators.StrCmpIs` | src/interpreter.c:197-206 | strings are compared as in a dictionary of bytes |
| `Operators.ContentIs` | src/runtime.c:5-12 | the text of a string is what stands between the quotes of a literal, and otherwise the string |
| `Operators.StringOperators` | src/interpreter.c:187-228 | two string literals are joined, or compared as in a dictionary, by their texts without the quotes |
| `Operators.BoolOperators` | src/interpreter.c:176-185 | the operators on booleans |
| `Operators.NumberSigns` | src/interpreter.c:60-63 | minus on integers and floats |
| `Operators.OperandsTaken` | src/interpreter.c:73-234 | which pairs of operands each operator takes; every other pair is a type error, and the only other error is a division of integers by zero; the machine does the same |
| `Operators.OperandTaken` | src/interpreter.c:56-71 | which operands negation and not take, in both evaluators |
| `Operators.CastIs` | src/interpreter.c:321-327 | the cast of an index to 32 bits leaves 32-bit numbers alone and drops multiples of 2 to the 32 |
| `Operators.ElementIs` | src/interpreter.c:309-329 | indexing gives the element at a place counted from 0, and an error elsewhere |
| `Operators.EntryIs` | src/interpreter.c:293-308 | indexing a map gives the value of the first pair with the key, and nil when there is none |
| `Operators.FieldIs` | src/interpreter.c:77-99 | a field is the first of its name, and an error when there is none |
| `Operators.IndexErrors` | src/interpreter.c:288-320 | what cannot be indexed, or is no struct, is an error |
| `Meanings.IfTakes` | src/runtime.c:125-139 | an if runs its block unless its condition is false, nil, 0, a float equal to 0, a string of no bytes, an empty array or map, or an err, and its else part for exactly these |
| `Meanings.WhileTakes` | src/interpreter.c:582-592 | a while runs its body unless its condition is one of these; break ends it and continue does not |
| `Meanings.JumpTakes` | src/vm.c:449-460 | JUMP_IF_FALSE jumps for exactly these values, and JUMP_IF_TRUE for the others |
| `Meanings.ChooseShows` | src/compiler.c:388-401 | for all integers, `if a < b { return x }` and then `return y` shows x through the machine exactly when a < b, and so for the other comparisons |
| `Meanings.CountMeans` | src/compiler.c:403-433 | a loop that counts while i < n counts up to n and not past it |
| `Meanings.SumMeans` | src/compiler.c:435-534 | a for with a break and a continue adds the elements in order, skips some and stops at the first to stop at |
| `Meanings.ElementMeans` | src/interpreter.c:309-329 | an element of an array literal is the one written at its place |
| `Meanings.CallErrors` | src/vm.c:498-514 | what is called is a function, with as many arguments as parameters, in no more than 512 calls in one another |
| `Meanings.MinusMeans` | src/vm.c:192-197 | arguments go to the parameters in their order |
| `Meanings.BuiltinGets` | src/vm.c:538-550 | a builtin gets its arguments in their order |
| `Meanings.CaptureMeans` | src/vm.c:463-496 | a lambda holds the values of its place, a function of the main program looks its names up when it is called |
| `Meanings.NestedIs` | src/compiler.c:552-624 | a function statement within a function is a closure |
| `Meanings.ChangeMeans` | src/vm.c:175-190 | a closure assigns to its own copy, a function of the main program to the variable |
| `Meanings.ScopesMean` | src/compiler.c:536-550 | a declaration in a block ends with it, an assignment does not |
| `Meanings.NameErrors` | src/runtime.c:53-71 | a name that is bound nowhere, and an assignment to a let, are errors |
| `Meanings.FixedNames` | src/vm.c:192-197 | parameters and function names are not assigned to |
| `Meanings.TryTakes` | src/vm.c:711-727 | `?` takes the value out of an ok and returns an err |
| `Meanings.LiteralParts` | src/vm.c:590-655 | struct and map literals hold their parts in order, and a field or an entry is the value written for its name |
| `Meanings.LeftFirst` | src/interpreter.c:101-104 | the left operand comes first, and its error is the one seen |
| `Meanings.NothingGiven` | src/compiler.c:355-386 | a declaration, a return and a program without a value give nil |
| `Meanings.LoopVariable` | src/compiler.c:445-449 | the variable of a for is assigned like any other, in its turn only |
| `Meanings.LiteralsGive` | src/interpreter.c:32-42 | a literal gives what it writes, a string with its quotes |
| `Meanings.ReturnLeaves` | src/vm.c:529-535 | a return in a for ends the program with the element of its turn; what is looped over is an array |
| `Meanings.ReturnLeavesWhile` | src/vm.c:529-535 | and so in a while |
| `Meanings.BeginsWithLine` | src/compiler.c:344-347 | the code of every statement and block begins with the LINE of its line, at which a due collection runs |
| `Meanings.ArgumentsUpTo64` | src/vm.c:515-519 | a call goes through if and only if it has at most 64 arguments, which is the room the machine has |
| `Meanings.FieldsUpTo64` | src/vm.c:590-609 | a struct is made of the names and values on the stack if and only if it has at most 64 fields |
| `TreeWalk.Walk` | src/interpreter.c:28-505 | an evaluation outside of calls never jumps and keeps what `?` holds; one in a call holds nothing |
| `TreeWalk.WalkMirrors` | src/interpreter.c:28-505 | with at most 32 builtin arguments the tree walker gives the value or error the expression means, or jumps out of its call with the err, or, outside of calls, holds an err and goes on |
| `TreeWalk.WalkAgreesIff` | src/interpreter.c:442-461 | the tree walker gives what the expression means if and only if it runs in a call or comes by no `?` on an err |
| `TreeWalk.TopLevelTryGoesOn` | src/interpreter.c:454-460 | an input on which the two differ: `[err(1)?, 1 / 0]` outside of calls is a division error in the tree walker and a returned err otherwise |
| `TreeWalk.LateArgument` | src/builtins.c:25-33 | inputs on which they differ for every number of builtin arguments past 32: an undefined name in the 33rd place is never looked at |
| `TreeWalk.EvaluatorsAgree` | src/interpreter.c:28-505 | on any stack with room the machine and the tree walker agree on value, error and returned err, in every call and, outside, where no `?` meets an err; otherwise the machine has returned an err while the tree walker went on |
| `Correctness.CallsAreBalanced` | src/vm.c:151-234 | however a body ends, a call leaves the stack below it, all frame records and the number of bindings alone, and a closure call every binding |
| `Correctness.BlocksAreBalanced` | src/compiler.c:487-550 | every block restores the binding count of its entry, and its break and continue jumps that of the loop |
| `Correctness.LogicalIsUnbalanced` | src/compiler.c:127-145 | && and \|\| never push their result: a deciding left operand leaves nothing, the other case also takes a value from below, or is stuck when there is none |
| `Shapes.Then` | src/compiler.c:536-550 | two checked fragments in sequence are a checked fragment |
| `Shapes.Discharge` | src/chunk.c:49-54 | a jump that led out of a fragment to a place within a greater one is checked there |
| `Shapes.PointsAreBoundaries` | src/vm.c:238-245 | the positions a check speaks of are exactly those met when the code is decoded from its start |
| `Shapes.FillsHeight` | src/vm.c:44-66 | a stack shape determines how many values there are |
| `Verified.StepChecked` | src/vm.c:245-845 | an instruction of checked code does not get stuck, and where it goes the stack shape and the bindings are as the check says |
| `Verified.CheckedRun` | src/vm.c:238-848 | a run of checked code never gets stuck; when it halts, the caller's part of the stack is as it was and its bindings are there |
| `Verified.CheckedCall` | src/vm.c:151-234 | the same for a call and what follows it |
| `CheckedCode.CheckE` | src/compiler.c:80-342 | the code of every orderly expression checks, on any stack shape, and pushes one value |
| `CheckedCode.CheckExit` | src/compiler.c:487-534 | the code of a break or continue checks, wherever in the loop it sits: its jump leads to the loop's exit or start, which ask for the loop's stack and bindings |
| `CheckedCode.CheckS` | src/compiler.c:344-624 | the code of every orderly statement checks, and leaves the stack shape it found and one more binding per declaration |
| `CheckedCode.CheckIf` | src/compiler.c:388-401 | both patched jumps of an if chain lead to an instruction that expects their stack |
| `CheckedCode.CheckWhile` | src/compiler.c:403-433 | so do the jumps of a while loop, its breaks and continues included |
| `CheckedCode.CheckFor` | src/compiler.c:435-485 | so do those of a for loop, with the iterator on the stack |
| `CheckedCode.FnChecks` | src/compiler.c:552-570 | the chunk of every orderly function passes the check |
| `CheckedCode.ProgramChecks` | src/compiler.c:626-654 | the chunk of every orderly program passes the check |
| `CheckedCode.OrderlyNeverStuck` | src/vm.c:53-66 | no run of an orderly program underflows the stack, leaves the chunk, reads a constant of the wrong kind or finds anything but an iterator under ITER_NEXT, wherever its breaks and continues sit |
| `CheckedCode.JumpsLand` | src/chunk.c:49-60 | the code of an orderly program is a row of instructions up to its end, and every jump in it, back-patched breaks included, leads to one of them |
| `CheckedCode.SameHeight` | src/vm.c:238-848 | whatever way two runs of a chunk take to the same instruction, and whatever lies below them, they have pushed equally many values there, and nothing below is touched |
| `StackDepth.RunFits` | src/vm.c:44-51 | from any checked instruction, with room for the calls still possible, a run does not overflow the stack |
| `StackDepth.CallFits` | src/vm.c:157-234 | nor does a call of a checked function and what follows it |
| `StackDepth.DepthBoundsStack` | src/vm.c:44-51 | an orderly program whose calls nest at most d deep, into chunks that need at most n cells each, never overflows the stack when (d + 1) n is at most 1024 |
| `StackDepth.DepthBoundsMeaning` | src/vm.c:151-234 | and so its finished runs show what the source means, and nothing else |
| `Vms.EnvGet` | src/runtime.c:53-60 | the backward loop finds the innermost binding |
| `Vms.EnvAssign` | src/runtime.c:62-71 | the backward loop rebinds the innermost binding, or reports it undefined or immutable |
| `Vms.SearchPairs` | src/vm.c:570-579 | the forward loop finds the first pair with the key |
| `Vms.UnzipSnoc` | src/vm.c:645-651 | popping a value and its key puts one pair in front |
| `Vms.Vm.Push` | src/vm.c:44-51 | one more value, or stack overflow at 1024 |
| `Vms.Vm.Pop` | src/vm.c:53-60 | the top value, and the rest as before |
| `Vms.Vm.Peek` | src/vm.c:62-66 | reads below the top without changing anything |
| `Vms.Vm.DoIterNext` | src/vm.c:742-756 | pushes the next element and advances the index in place, or jumps past the loop |
| `Vms.Vm.Dispatch` | src/vm.c:245-845 | each opcode's case takes the machine to the state the instruction defines |
| `Vms.Vm.DefineParams` | src/vm.c:192-197 | parameters become bindings; the result of env_define is not looked at |
| `Vms.Vm.CallFn` | src/vm.c:151-234 | pushes a frame record, reads the base back from it behind the callee's run and restores stack height and bindings; however the run ends, the frame records are as before |
| `Vms.Vm.Execute` | src/vm.c:238-848 | the dispatch loop reaches the state, or raises the fault, of the machine's run, and leaves the frame records below unchanged however it ends |
| `Pipeline.Interpret` | src/vm.c:894-940 | a program is rejected exactly for its compile error, and otherwise gives the value and bindings, or the error, that its source means |
| `Pipeline.CheckedRunsClean` | src/sema.c:372-447 | no compiled program that the checker accepts, of the kind it is sound for, makes the machine report an undefined variable or an assignment to an immutable one |
| `Gcs.ReachIsWithin` | src/runtime.c:75-111 | the least closed set over the roots is what some number of steps from them reaches |
| `Gcs.MarkVal` | src/runtime.c:75-111 | on any graph, cyclic ones too, marking ends and marks exactly what the value reaches through unmarked objects |
| `Gcs.MarkIsReach` | src/runtime.c:113-120 | from a clear state the marked objects are exactly the reachable ones |
| `Gcs.MarkThen` | src/vm.c:75-82 | marking two groups of roots in turn is marking both |
| `Gcs.MarkAll` | src/vm.c:75-82 | the marking loop over a list of roots |
| `Gcs.MarkFrames` | src/vm.c:83-93 | frames mark their function object, without what it captured, and their saved environment |
| `Gcs.MarkedSafe` | src/vm.c:83-93 | from what has been marked only the functions of frames lead out, so the same roots can be marked again after a sweep |
| `Gcs.FramesBounds` | src/vm.c:83-93 | what the frames mark lies within what they reach |
| `Gcs.KeepMembers` | src/gc.c:41-56 | the survivors are the marked members, in their order |
| `Gcs.Gc.constructor` | src/gc.c:8-13 | an empty list at the initial threshold |
| `Gcs.SweepsArePaid` | src/gc.c:27-63 | over every sequence of allocations and statement boundaries, whatever collections leave, all sweeps together look at no more than twice the bytes ever allocated |
| `Gcs.SpaceBound` | src/gc.h:43-46 | the other half: over every such sequence the bytes in the list are at most a mebibyte or twice what the last sweep left, and what was allocated behind the last boundary |
| `Gcs.BoundaryBound` | src/vm.c:833-841 | so at a boundary they are at most a mebibyte or twice what the last sweep left |
| `Gcs.DueIsDone` | src/vm.c:833-841 | a boundary with more bytes than that sweeps |
| `Gcs.Gc.Alloc` | src/gc.c:27-39 | a new unmarked object at the head, counted and its size added |
| `Gcs.Gc.Unlink` | src/gc.c:44-50 | taking one object out leaves the list linked through the others |
| `Gcs.Gc.Sweep` | src/gc.c:41-59 | exactly the marked objects stay, in order, unmarked, with the counters equal to length and bytes and the threshold set from them |
| `Gcs.Gc.Collect` | src/runtime.c:115-121 | the list afterwards holds exactly the objects reachable from the environment and the return value, in order, unmarked, whatever other objects held |
| `Gcs.SurvivorsAre` | src/vm.c:74-95 | what the machine's collector marks is, by the heap before it, what stack and environment lead to, the functions of the frames, and what each saved environment leads to without going on from the functions of its frame and of those below |
| `Gcs.Gc.CollectVm` | src/vm.c:74-95 | the list keeps exactly these survivors, in order and unmarked; asks only that marking leads to objects that exist, and leaves that so for the next collection from the same roots |
| `Gcs.Gc.CollectIfDue` | src/vm.c:833-841 | past the threshold the survivors of the heap before are left, in order, and otherwise everything; byte counts change as in the accounting, and later collections stay possible |
| `Gcs.VmBounds` | src/vm.c:74-95 | everything the stack and the environment reach survives, and every survivor is reached from them, a frame's function or a saved environment |
| `GcRuns.SurvivorsHold` | src/vm.c:74-95 | the survivors include the roots, exist, and are left by values of the frames' functions only |
| `GcRuns.KeepsAllIff` | src/vm.c:83-93 | the machine's collector keeps exactly what its roots reach if and only if, in the heap before it, the captured values of the frames' functions are among what stack, environment and saved environments lead to without these functions |
| `GcRuns.AssignKeepsIff` | src/vm.c:157-206 | an assignment keeps the captured values of all running closures bound if and only if it is to another variable than a captured one, or assigns what the variable has |
| `GcRuns.MoveKeeps` | src/vm.c:157-234 | calls, returns, declarations and the ends of blocks keep them bound |
| `GcRuns.NothingLost` | src/vm.c:74-95 | over every run in which no captured variable gets another value, whatever is called, returned from and bound, a collection keeps exactly what is reached |
| `GcRuns.ReturnStaysSafe` | src/vm.c:74-95 | what such a collection leaves is enough for the next one behind a return |
| `GcRuns.FrameKeepsFunctionOnly` | src/vm.c:83-93 | a witness played from a call: when a closure's body has assigned a number to its captured variable, the closure survives while the array it captured is swept |
| `GcRuns.ReturnBringsItBack` | src/vm.c:74-95 | a witness: in the same run collections are safe while the call lasts, and after its return the caller's variable leads to a swept object |
| `GcRuns.SafePush` | src/gc.c:27-39 | a new object that holds values of the stack can be pushed without harm to the next collection |
| `GcRuns.Churn` | src/vm.c:833-841 | allocations between any number of collections, with calls in progress: every later collection stays possible and paid for, and the bytes left are at most a mebibyte or twice what the last sweep left |
| `Strings.Find` | src/builtins_core.c:652-661 | the first occurrence at or after a position, or the end |
| `Strings.JoinSplit` | src/builtins_core.c:631-678 | joining undoes splitting on all strings and separators, with or without the cap of 255 cuts |
| `Strings.PartsAreFree` | src/builtins_core.c:650-667 | only the last part can contain the separator, and only when the cap was hit |
| `Strings.JoinUndoesSplit` | src/builtins_core.c:853-895 | through values the round trip holds if and only if no part of two bytes or more begins with a quote |
| `Strings.JoinUndoesSplitPlain` | src/builtins_core.c:853-895 | in particular for every string without quotes |
| `Strings.ReplaceIsJoinSplit` | src/builtins_core.c:726-770 | replacing is splitting and joining with the new text |
| `Strings.ReplaceIsBuiltins` | src/builtins_core.c:726-770 | through the builtins this holds, below the cap, if and only if no part looks like a literal |
| `Strings.ReplaceLength` | src/builtins_core.c:747-753 | the counted size is the size of what the filling pass writes |
| `Strings.CutAll` | src/builtins_core.c:650-667 | the scan cuts where splitting says |
| `Strings.Concat` | src/builtins_core.c:866-894 | the two passes fill a buffer of the counted size exactly with the joined text |
| `Strings.CountAll` | src/builtins_core.c:747-752 | counts the occurrences that the filling pass replaces |
| `Strings.Fill` | src/builtins_core.c:759-769 | fills the buffer exactly with the replaced text |
| `Strings.BuiltinSplit` | src/builtins_core.c:631-678 | argument errors and the parts |
| `Strings.BuiltinJoin` | src/builtins_core.c:853-895 | argument errors, an element that is no string among them, and the joined text |
| `Strings.BuiltinReplace` | src/builtins_core.c:726-770 | argument errors and the replaced text; an empty pattern replaces nothing |
| `Json.PassesAgree` | src/json.c:75-163 | on every input the counting and the filling pass of a string agree, so the buffer is filled exactly |
| `Json.Scan` | src/json.c:107-132 | the counting pass ends at a quote inside the input |
| `Json.ParseValue` | src/json.c:328-347 | every successful parse advances and stays within the input, so parsing ends |
| `Json.ParseItems` | src/json.c:231-241 | every list of elements parsed is not empty, has at most 1024 elements with those before it, and ends within the input |
| `Json.ParsePairs` | src/json.c:279-303 | the same for members, of which there are at most 256 |
| `JsonParsers.JsonParser.CountChars` | src/json.c:107-132 | the counting loop |
| `JsonParsers.JsonParser.FillChars` | src/json.c:134-162 | the filling loop writes exactly the counted characters |
| `JsonParsers.JsonParser.ParseStr` | src/json.c:75-163 | a string in either delimiter style, or its first error |
| `JsonParsers.JsonParser.ParseNum` | src/json.c:165-210 | an integer or a float by its characters, clipped at 63 |
| `JsonParsers.JsonParser.ParseArr` | src/json.c:212-254 | an array or its first error |
| `JsonParsers.JsonParser.ParseObj` | src/json.c:256-326 | an object or its first error |
| `JsonParsers.JsonParser.ParseVal` | src/json.c:328-347 | the value and the position behind it, or the first error and where it is |
| `JsonParsers.JsonParse` | src/json.c:349-394 | ok of the value, or err with the message and the position, or err for trailing content |
| `JsonTexts.ParsesExactlyTexts` | src/json.c:349-394 | a text is parsed to a value if and only if some derivation of that value (blanks, both styles of quotes, escapes, numbers with fraction and exponent, at most 1024 elements and 256 members) spans all of it; every other text is an err |
| `JsonTexts.TreeBack` | src/json.c:328-347 | every derivation is parsed, wherever it stands, up to its end |
| `JsonTexts.TreeRead` | src/json.c:328-347 | everything parsed has a derivation over exactly the characters taken |
| `JsonTexts.NumberIs` | src/json.c:165-210 | an integer is what the first 63 characters of its text write, held to 64 bits; a sign without digits is none |
| `JsonGrammar.TextBack` | src/json.c:75-163 | a string is the characters its units stand for |
| `JsonTexts.OneMeaning` | src/json.c:349-394 | two derivations of one text mean the same |
| `JsonTexts.TrailingContent` | src/json.c:375-385 | a value with anything but blanks behind it is the err of trailing content |
| `JsonTexts.DecimalIs` | src/json.c:476-481 | integers and positions are written in decimal, without a zero in front |
| `JsonTexts.EscapeIs` | src/json.c:437-463 | each character is printed as itself, as an escape of one letter that stands for it, or as `\u00` and the two hex digits of its code |
| `JsonTexts.ShowIs` | src/json.c:528-544 | a result is printed as an object of one member named ok or err, a function as a string |
| `JsonTexts.ShownCompactly` | src/json.c:465-527 | values are printed without blanks: parts between commas, a name and its value with a colon in between, the escaped characters of a string between quotes |
| `JsonTexts.PrintedIsText` | src/json.c:465-544 | printed values are texts of the grammar and mean the value |
| `JsonErrors.Reported` | src/json.c:368-373 | a text with an error is the err of its message and its position |
| `JsonErrors.EndsEarly` | src/json.c:328-330 | blanks up to the end are the end of the input |
| `JsonErrors.WrongStart` | src/json.c:332-346 | where no value begins, the character behind the blanks is unexpected |
| `JsonErrors.NumberStops` | src/json.c:165-208 | a minus that no number goes on from is an invalid number |
| `JsonErrors.StringStops` | src/json.c:107-132 | a string that the end of the text or a wrong escape breaks off is reported there |
| `JsonErrors.BareStops` | src/json.c:89-98 | so is one between quotes with backslashes |
| `JsonErrors.FirstElement` | src/json.c:212-234 | an error in the first element of an array is that of the array |
| `JsonErrors.ArrayStops` | src/json.c:231-241 | behind elements stands a comma or the bracket, behind the comma of the 1024th no more, and otherwise the error of the next element is that of the array |
| `JsonErrors.FirstMember` | src/json.c:256-286 | an error in the first member of an object is that of the object |
| `JsonErrors.MemberAnswer` | src/json.c:282-286 | a member begins with a string, whose error is its own |
| `JsonErrors.KeyAnswer` | src/json.c:291-295 | a colon stands behind the key, and the error of the value is that of the member |
| `JsonErrors.ObjectStops` | src/json.c:279-303 | as for arrays, up to 256 members |
| `JsonPrinters.JsonBuf.Append` | src/json.c:415-431 | the text grows by the appended one, whatever the capacity was |
| `JsonPrinters.JsonBuf.AppendEscaped` | src/json.c:437-463 | appends the quoted and escaped string |
| `JsonPrinters.JsonBuf.Stringify` | src/json.c:465-544 | appends the printed value |
| `JsonPrinters.JsonStringify` | src/json.c:546-565 | the printed form of the value |
| `JsonLaws.RereadIsSame` | src/json.c:118-122 | a string comes back unchanged if and only if none of its characters is printed as \u |
| `JsonLaws.StringBack` | src/json.c:437-463 | a printed string is read back from anywhere, as what its escapes decode to |
| `JsonLaws.DigitsBack` | src/json.c:476-481 | the decimal digits of a number have its value |
| `JsonLaws.IntBack` | src/json.c:165-210 | every 64-bit integer is read back from its decimal form |
| `JsonLaws.ValueBack` | src/json.c:328-347 | a printed value is read back from anywhere in a text, and reading stops right behind it |
| `JsonLaws.ParseUndoesShow` | src/json.c:349-394 | parsing what was printed gives ok of the normalised value |
| `JsonLaws.EscapeShow` | src/json.c:58-73 | escaping the quotes of a printed value is printing it in the other delimiter style |
| `JsonLaws.DelimitersDoNotMatter` | src/json.c:58-105 | a printed value of plain text parses to the same value when every quote is written with a backslash |
| `JsonBuiltins.QuotedIs` | src/json.c:465-544 | strings and functions are printed between quotes, nothing else is |
| `JsonBuiltins.BareIsOther` | src/builtins_core.c:921-934 | a printed string whose quotes are taken off is never read as the string it was |
| `JsonBuiltins.BuiltinsRoundTripIff` | src/builtins_core.c:921-945 | json_parse of json_stringify gives ok of the normalised value if and only if the printed text does not begin with a quote |
| `JsonBuiltins.CallsTake` | src/builtins_core.c:921-945 | both take one argument, json_parse a string, which it reads without the quotes of a literal |
| `Imports.ClosedHoldsReach` | src/vm.c:764-831 | a set closed under imports holds all that is reached from it |
| `Imports.BodyGrows` | src/vm.c:764-831 | running a body adds only modules that performed imports reach, and, when nothing fails, all that they import |
| `Imports.StartedOnce` | src/vm.c:807-824 | no module is registered twice, and the registered ones are those whose bodies were begun, in that order |
| `Imports.LoadsWhatIsPerformed` | src/vm.c:764-831 | on any import graph loading ends with at most 64 distinct modules, all reached by imports that are performed, and without an error with all of these |
| `Imports.AllLoadedIff` | src/vm.c:826-830 | a load without an error has loaded all reached modules if and only if no body that was run ends before an import of a module that is not loaded otherwise |
| `ImportErrors.LoadsIff` | src/vm.c:764-831 | loading ends without an error if and only if no performed action of the program or of a reached module fails, every performed import leads to a file that parses, and at most 64 modules are reached |
| `ImportErrors.ImportAnswers` | src/vm.c:764-815 | the error of an import that cannot be done |
| `Imports.ReturnSkipsImport` | src/vm.c:529-535 | an input on which it has not: a body that returns and then imports |
| `Imports.Loader.Loaded` | src/modules.c:70-75 | whether a path is registered |
| `Imports.Loader.Load` | src/vm.c:764-831 | one import in place: registered, run in its own file, the file put back |
| `Imports.Loader.Execute` | src/vm.c:238-848 | a body as far as it is run, statement by statement |
| `Imports.LoadProgram` | src/vm.c:764-831 | the error and the modules of a whole program, whose body ends behind a top-level return |
| `Semas.OnlyInnermost` | src/sema.c:57-68 | parameters go to the innermost scope only |
| `Semas.Sema.Push` | src/sema.c:40-49 | an empty scope on top |
| `Semas.Sema.Pop` | src/sema.c:51-55 | the outer scopes again; the outermost stays |
| `Semas.Sema.Add` | src/sema.c:57-68 | one more variable in the current scope, unless it holds 256 |
| `Semas.Sema.Find` | src/sema.c:70-80 | the innermost scope with the name wins |
| `Semas.Sema.CheckExpr` | src/sema.c:98-224 | stops with the expression's first error and leaves the scopes alone |
| `Semas.Sema.CheckStmt` | src/sema.c:228-353 | stops with the statement's first error, or adds what it declares |
| `Semas.Sema.CheckBlock` | src/sema.c:313-320 | a block's variables are gone behind it |
| `Semas.Sema.Check` | src/sema.c:372-447 | accepts a program exactly when it has no error, functions of the top level known in advance |
| `WellScoped.AcceptsExactlyWellScoped` | src/sema.c:372-447 | the checker accepts a program if and only if every name that is read is lexically known, every name that is assigned to is a variable, and every call of a known function has as many arguments as it has parameters, builtins by name and functions of the top level known in advance; otherwise it reports the first use that is not so |
| `WellScoped.ExprIs` | src/sema.c:98-224 | the same for an expression |
| `WellScoped.StmtIs` | src/sema.c:228-353 | and for a statement |
| `WellScoped.StartAgrees` | src/sema.c:376-427 | the outermost scope knows the builtins of the table with their numbers of arguments |
| `SemaSound.LookupFlat` | src/sema.c:70-80 | looking through the scope chain is looking backwards through the concatenated scopes |
| `SemaSound.NameIsBound` | src/sema.c:108-119 | an accepted name is bound at run time |
| `SemaSound.AssignSucceeds` | src/sema.c:250-270 | an accepted assignment succeeds at run time |
| `SemaSound.SoundE` | src/sema.c:98-224 | evaluating an accepted expression, lambdas and calls of them included, meets no undefined name, keeps the environment as it was, and yields closures that were accepted where they were made |
| `SemaSound.SoundApply` | src/vm.c:157-234 | calling such a closure, wherever it has come to, meets no undefined name and assigns to nothing immutable |
| `SemaSound.EnterClosure` | src/sema.c:178-190 | captured bindings and parameters stand in step with the scopes in which the lambda was checked, when they fit in 256 |
| `SemaSound.SoundS` | src/sema.c:228-353 | running an accepted statement other than a function meets no undefined name, assigns to nothing immutable and keeps the environment in step with the scopes |
| `SemaSound.SoundFor` | src/sema.c:295-306 | so does every turn of a for loop |
| `SemaSound.CheckerSound` | src/sema.c:372-447 | no accepted program of this kind reports an undefined variable or an assignment to an immutable one |
| `SemaLimits.BuiltinAsValue` | src/sema.c:376-427 | a builtin used as a plain value is accepted and undefined at run time, and no other accepted name is |
| `SemaLimits.FullScopeMisleads` | src/sema.c:57-68 | in a full scope a let is not recorded, and an assignment to it is accepted and fails |
| `SemaLimits.DeclKeepsAgreeIff` | src/sema.c:57-68 | a declaration keeps checker and environment in step if and only if the innermost scope holds fewer than 256 variables |
| `SemaLimits.WholeProgramMisjudged` | src/sema.c:372-447 | a whole program that the checker accepts and that assigns to an immutable variable |
| `SemaLimits.RoomRunsOut` | src/vm.c:175-193 | a function made where nothing was bound runs in its caller's bindings: one that calls itself fills them, and then a parameter is missing |
| `SemaLimits.RunsOutAccepted` | src/sema.c:372-447 | the checker accepts a whole program of such lambdas |
| `SemaLimits.RunsOutFails` | src/vm.c:175-193 | and its run reports an undefined variable |
| `Pratt.BinOf` | src/parser.c:57-78 | every token between the two extremes stands for one binary operator |
| `Pratt.SkipLines` | src/parser.c:33-37 | the token where skipping stops is no newline |
| `Pratt.SkipsOnlyLines` | src/parser.c:33-37 | and every token skipped is one |
| `Pratt.ParseExpr` | src/parser.c:698-712 | a successful parse takes at least one token and stays within them, so parsing ends |
| `Parsers.Parser.Advance` | src/parser.c:6-9 | the next token becomes current; at the end of file it stays |
| `Parsers.Parser.Expect` | src/parser.c:21-31 | takes the expected token, or records the first error |
| `Parsers.Parser.ParseExpression` | src/parser.c:698-712 | the loop returns the tree and the position, or the first error, of parsing operators above the given precedence |
| `Parsers.Parser.Prefix` | src/parser.c:453-604 | literals, names, groups, prefix operators, ok and err, array literals |
| `Parsers.Parser.ProbeFields` | src/parser.c:471-485 | whether a brace behind a name opens struct fields |
| `Parsers.Parser.List` | src/parser.c:525-536 | at most 128 expressions between commas, newlines around them |
| `Parsers.Parser.Infix` | src/parser.c:645-695 | one binary operator or postfix form |
| `Parsers.Parser.CallTail` | src/parser.c:607-642 | the arguments of a call |
| `Grammar.Absorb` | src/parser.c:698-712 | parsing a derivation from its start is to go on with the operator loop behind it |
| `Grammar.Whole` | src/parser.c:698-712 | completeness: every derivation of the precedence table that no operator continues is parsed to its tree, with exactly its tokens |
| `Grammar.ItemsBack` | src/parser.c:525-536 | the same for the items of a list, newlines included |
| `Grammar.InfixBack` | src/parser.c:645-695 | the same for every operator and postfix form behind its left operand |
| `ParserLaws.SoundExpr` | src/parser.c:698-712 | soundness: every returned tree has a derivation that respects precedence and left associativity and spans exactly the tokens taken |
| `ParserLaws.SoundInfix` | src/parser.c:645-695 | the same for one turn of the loop |
| `ParserLaws.SoundList` | src/parser.c:607-642 | the same for argument lists |
| `ParserLaws.ParsesWhatIsDerived` | src/parser.c:57-78 | the parser returns a tree and a position if and only if the precedence table derives that tree from those tokens |
| `ParserLaws.Unambiguous` | src/parser.c:57-78 | two derivations from one place that no operator continues end together and yield one tree |
| `Precedence.TwoOperators` | src/parser.c:57-78 | between three operands the second of two operators takes the middle one exactly when it stands in a later row of the table, for all operators |
| `Precedence.PrefixBinds` | src/parser.c:156-162 | a prefix operator takes its operand only, on either side of any binary operator |
| `Precedence.PostfixFirst` | src/parser.c:57-78 | a postfix form binds tighter than a prefix operator |
| `Precedence.PostfixBinds` | src/parser.c:57-78 | and tighter than any binary operator |
| `Precedence.ObeysIsByRows` | src/parser.c:57-78 | the precedences say the same of every tree as the rows of the table |
| `Precedence.ParsesByRows` | src/parser.c:698-712 | an expression is parsed to a tree exactly when the rows of the table derive it from its tokens and no token behind goes on |
| `Precedence.OperandAlone` | src/parser.c:101-148 | each literal and name on its own, an integer by the first 31 of its digits |
| `Precedence.AroundOperand` | src/parser.c:242-252 | ok, err and parentheses around an operand |
| `Precedence.ListsUpTo128` | src/parser.c:521-545 | a list of n names is parsed to them if and only if n is at most 128 |
| `Precedence.FormsLeftOut` | src/parser.c:465-486 | which tokens behind a name make it a struct literal or an interpolated string |
| `Precedence.NameBeforeBlock` | src/parser.c:471-485 | a name before any other brace is an operand |
| `Precedence.NothingBegins` | src/parser.c:598-602 | where an expression or the operand of an operator should begin and none does, the token there is unexpected |
| `Precedence.GroupsClose` | src/parser.c:150-154 | a group or a wrapped value that is not closed is reported at the token in the place of the parenthesis |
| `Precedence.IndexCloses` | src/parser.c:662-670 | so is an index |
| `Precedence.ArrayCloses` | src/parser.c:527-536 | so is an array literal, where neither a comma nor a newline goes on |
| `Precedence.CallCloses` | src/parser.c:616-632 | and a call |
| `Precedence.NothingFollows` | src/parser.c:672-675 | a name stands behind a point, and a parenthesis behind ok and err |
| `ExprPrinters.PlainBack` | src/parser.c:57-78 | a tree written with minimal parentheses respects the table and is the tree again |
| `ExprPrinters.IntBack` | src/parser.c:101-112 | the digits of every 64-bit integer literal are read back as the number |
| `ExprPrinters.ParseUndoesPrint` | src/parser.c:698-712 | parsing the written tokens returns the tree and takes exactly those tokens, whatever follows that cannot go on |
| `ExprPrinters.PrintIsShortest` | src/parser.c:150-154 | no other derivation of the tree has fewer tokens |
| `Lexing.SkipGap` | src/lexer.c:87-108 | behind the gap stands no white space and no comment |
| `Lexing.Next` | src/lexer.c:214-323 | every token but the last moves on, or uses up the newline flag, so lexing ends |
| `Lexers.Lexer.SkipWhitespaceAndComments` | src/lexer.c:87-108 | the loop stops at the gap's end and reports whether a line break was in it |
| `Lexers.Lexer.ScanNumberTail` | src/lexer.c:112-125 | the digits, and a fraction only when a digit follows the point |
| `Lexers.Lexer.ScanStringTail` | src/lexer.c:129-150 | the closing quote, or an unterminated string |
| `Lexers.Lexer.ScanSymbol` | src/lexer.c:255-318 | the operator or delimiter and the new bracket depth |
| `Lexers.Lexer.NextToken` | src/lexer.c:214-323 | the next token and the state behind it, or an error |
| `LexLaws.GapBack` | src/lexer.c:87-108 | a gap reaches as far as it can |
| `LexLaws.StringIs` | src/lexer.c:129-150 | a string is closed by a quote, and what lies within is characters and escape pairs without quote or line break |
| `LexLaws.StringBack` | src/lexer.c:129-150 | and every such stretch is scanned as a string |
| `LexLaws.LexedIsTiled` | src/lexer.c:214-323 | what the lexer returns tiles the source: spelled, longest, separated by white space and whole comments only |
| `LexLaws.TiledIsLexed` | src/lexer.c:214-323 | every tiling is what the lexer returns |
| `LexLaws.LexesExactlyTilings` | src/lexer.c:214-323 | lexing succeeds with a list of tokens if and only if they tile the source, with a newline token behind a token that may end a statement just when a line break outside brackets or the end of the source follows |
| `LexTables.WordAlone` | src/lexer.c:158-198 | each of the 18 keywords is the token of its name, and any other word a name |
| `LexTables.SymbolAlone` | src/lexer.c:264-318 | each of the 26 symbols is the token of its kind |
| `LexTables.NumberAlone` | src/lexer.c:112-125 | digits are an integer, and with a point and more digits a float |
| `LexTables.StringAlone` | src/lexer.c:129-148 | anything without quotes, backslashes and line breaks between quotes is a string |
| `LexTables.CharacterAlone` | src/lexer.c:214-323 | every character on its own is nothing, a name, a number, a symbol or an error |
| `LexTables.CommentAlone` | src/lexer.c:87-108 | a comment is nothing |
| `LexTables.BreakInBrackets` | src/lexer.c:218-272 | a line break is no token in round and square brackets and is one in braces |
| `LexTables.BreaksExactly` | src/lexer.c:214-234 | in every source, a newline token follows a token if and only if it may end a statement and either nothing else follows or the text up to the next token holds a line break and all round and square brackets are closed |
| `LexTables.LastEnds` | src/lexer.c:58-83 | behind every whole expression a line break ends the statement |
| `LexTables.OperatorsGoOn` | src/lexer.c:58-83 | behind an operator, an opening bracket or a comma it does not |
| `SourceTexts.WriteLexes` | src/lexer.c:214-323 | tokens written out with a blank behind each are read back as those tokens |
| `SourceTexts.LegibleSpells` | src/lexer.c:181-199 | every token of a tree with legal names and strings has a text the lexer reads as its kind |
| `SourceTexts.SourceRoundTrip` | src/parser.c:1001-1003 | source text of a tree goes through lexer and parser back to the tree |

## Left out

- Integer overflow: arithmetic is on unbounded integers; only the JSON codec, the
  literals of the parser and the cast of array indices have a width.
- Floats: an opaque type; their arithmetic, comparison, %g and strtod are
  parameters, and NaN and rounding are not looked at.
- match in the tree, the checker and the compiler: its arm bindings are never
  popped.
- Import statements in the compiler theorems: loading is modelled on its own in
  Imports, where path resolution and file contents are parameters and a body is the
  list of what its run performs.
- print, map and filter as builtins, and every builtin other than split, join and
  replace: a program's other builtin calls go to a parameter that maps arguments
  to a value or an error.
- HTTP, processes, files, environment variables, time, the REPL, the main loop,
  stack traces, error texts, line and column numbers.
- Out-of-memory paths of the C code.
- User calls in the tree walker: TreeWalk evaluates expressions that call builtins
  only; calls are compared with the machine through the semantics.
- The tree walker's statements, which neither scope blocks nor know break and
  continue: statements have a block-scoped semantics instead.
- Completeness of the collector's roots: chunk constants and the arrays that map
  and filter work on are no roots; the theorems are relative to the listed roots.
- Updates of heap objects: what an object holds is fixed when it is allocated, as the
  language has no operation that changes an array, a map or a struct in place.
- Interpolated strings, struct and map literals, lambdas and match in the parser
  model: each is answered with an error of its own, and the laws speak of token
  lists without them.
- Statements in the parser model, and lexical errors met while it looks ahead.
- Reading a float literal back in the printer of trees.
- Function statements in the checker's soundness: it takes those of the top level for
  defined from the start and lets a nested one call itself, though a closure does not
  capture its own name.  Lambdas made where nothing is bound, or without room for
  their parameters (`Values.CallBindsAll`, `SemaLimits.RunsOutFails`).
- Jump offsets and constant indices past 16 bits: the theorems ask for chunks
  under 65536 bytes and constants.
- Vms.Vm.Execute: takes a fuel bound, because a program may run forever; for every
  finished run some fuel is enough, and more changes nothing.
- Correctness.CompilerCorrect: leaves a full value stack open as a third way to
  end; NeverOverflows closes it for programs without user calls,
  StackDepth.DepthBoundsMeaning for runs whose calls nest to a known depth.
- Compilers.Compiler.CompileStmt: asks for at most 32 breaks a loop, past which
  the compiler silently leaves a jump unpatched.
- Vms.Vm.CallFn: decodes the callee's chunk from its declaration, where the code
  keeps the compiled chunk with the function.
- Parsers.Parser.List: collects into a sequence, where the code fills an array of
  128 places and copies it.
- Semas.Sema.Find: scopes are a sequence of variable lists, where the code chains
  arena-allocated scopes.
- SemaSound.CheckerSound: for programs without function statements whose lambdas
  capture at least one binding and have room for their parameters, without builtins
  as plain values, and with at most 256 variables a scope.
- JsonLaws.ParseUndoesShow: for values without floats, with 64-bit integers,
  arrays of at most 1024 and maps of at most 256 entries, which are the codec's
  own limits.
- CheckedCode.ProgramChecks: for programs without `&&` and `||`, without calls of
  print, map and filter, with at most 64 arguments of builtins and parameters of
  functions, 64 struct fields and 255 variables a block, which is what the
  machine's arrays and the operands of its instructions have room for.
- Correctness.NeverOverflows: counts a user call as more than the stack, so that it
  speaks of programs without them.  How deep calls nest is not known from the tree:
  StackDepth.DepthBoundsStack takes the depth of the run as given.

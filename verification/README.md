# Lito, verified

A model of the Lito language implementation in Dafny, and proofs about it: the
compiler to bytecode, the stack machine that runs the bytecode, method calls and
blocks, the lexer, the parser, the printers and the class hierarchy. Lito itself
is written in Go.

## What is modelled

**The language and its meaning.** `Ast` is the fragment of the syntax tree the
compiler theorem speaks about: integers, booleans, nil, strings, array literals,
`self`, `block?`, locals, single and multiple assignment, `&&` and `||`, the other
binary operators, `!`, `-` and `+`, `if`/`elsif`/`else`, `while` with `break` and
`continue`, `return`, method definitions with normal, default, rest and keyword
parameters, calls with positional and keyword arguments and blocks, and `yield`.
`Evaluator` gives each program its meaning by recursion over the tree, with
variables looked up by name in named environments: no stack, no code, no jump.
Classes, method lookup and builtin methods are a parameter, the `Host`. `Meanings`
says in terms of the expressions and values alone what operators compute, which
values count as true, what is assigned and read and what a call does; `Scopes` which
variable a name means; `ArgumentErrors` which calls are refused and where the
arguments of the others go.

**The compiler.** `Generators` is the generator as it is written: instruction sets
that grow, interned constants, anchors that are patched afterwards, scopes whose
loop anchors are exchanged, tables of locals (`LocalTables`). `Emission` is the
function it computes. `Layout` says, without mentioning the generator, what code
has to stand where in a compiled program; `Generation` and `Patching` prove that
the generator's output is laid out so. `Elide` is the jump-threading pass, in
place over an array.

**The machine.** `Machine` is one step of the virtual machine as a function, with
the frames as a list; `Interpreters` is the loop with its nested calls, in the
form of `execFrame`, and takes exactly those steps. `Threads` is the same loop over
frames that are objects with flags and links, on the value stack (`Stacks`) and the
call frame stack (`CallFrames`); it runs any code, with its loops, locals, calls and
yields, and adds what the machine leaves out: `break` out of a block, builtins that
run blocks, and `defer`. It keeps a record of every frame it has run (`Events`):
turn by turn, with what each turn has called and deferred. `Traces` says, without
mentioning the thread, what such a record has to look like, and `Valid` of a thread
includes that its record does; `Builtins` reads off such records what `each`, `map`,
`yield` and `defer` have run. `CallObjects` binds arguments to parameters.

**The front end and the printers.** `Lexing` and `Parsing` say what is read
where; `Lexers` and `Parsers` are the lexer and the parser with their moving
positions. `Scanning` says token by token which texts are which tokens, `Literals`
what is written in quotes, `Grammar` which trees lines have, and `Statements` what a
semicolon does to them. `Escaping`, `Printing` and `Rebuilding` are the three
printers and their round trips. `Hierarchies` is the class hierarchy, `Reversal` the
reversal of strings.

`dafny verify dfyconfig.toml` checks the whole project.

## Main results

1. `Pipeline.CompilerCorrect`: what the generator emits, patches and elides (any
   number of passes) ends as the evaluator says, and runs forever exactly when the
   evaluator never comes to an end. `Runs.RunProgram` is the same for the
   generator and the interpreter at work.
2. `Pipeline.CodeStaysAligned`: before and after eliding, code is walked exactly
   by operand counts, branches and constant indices stay in range, and every frame
   of every run stands at an instruction or at the end.
3. `Runs.RunInspected`: the printed text of a value, read by the lexer and the
   parser, compiled and interpreted, is the value.
4. `Meanings.OperatorRuns`, `Meanings.IfChooses`, `Meanings.MethodCalled`: what the
   six integer operators leave on the stack of a compiled run, to the 64 bits; that
   false and nil alone count as untrue; when a call is an argument error
   (`ArgumentErrors.CallFails`) and what it does otherwise.
5. `Grammar.PrecedenceCorrect`, `Grammar.TwoOperators`, `Literals.LiteralRead`,
   `Scanning.LongestOperator`: the parser returns the one correctly shaped tree, and
   which tokens and literals are read. `Printing.PrintedTreesReadBack` and
   `Escaping.PrintedStringsReadBack`: trees and strings that are printed are read back.
6. `CallDiscipline.CallKeepsCaller`, `BindingLaws.InterleavedBinding`,
   `Prologue.RestParameter`, `Yields.YieldRunsHomeBlock`: calls, argument binding,
   and which block `yield` runs.
7. `Threads.Thread.EvaluateNormalFrame`, `Threads.Thread.ExecFrame`,
   `Threads.Thread.Each`, `Traces.DeferredRun`: for any code, every frame is entered
   once and taken off exactly once, whatever breaks out of it; what it has run is its
   code, instruction by instruction from the first to the end, each call the run of
   the frame it calls; a builtin's loop runs a block for exactly the elements up to
   the one it breaks at; every deferred block is run exactly once, with the arguments
   it was registered with, the last one first, and leaves the stack as it was.
8. `Hierarchies`: chains stay finite, which of them end at Object
   (`Hierarchies.Hierarchy.RootedExactly`), lookup is the first definition along the
   chain, and what `include` changes.

## Where the code does less than one would expect

Each of these is proved, with the exact condition.

- An assignment through `depth > 0` to a slot that does not exist yet lands in the
  running frame, not in the declaring one (`Locals.InsertMisplaces`); a program whose
  assignment is lost that way is `Misplaced.AssignmentIsLost`. The evaluator calls such
  runs `Undefined`, and the theorems say nothing about them.
- A `yield` that stands two or more blocks deep runs the enclosing block once more, not
  the block of the method around it (`Yields.YieldRunsHomeBlock`). A program whose
  meaning is an error at such a yield runs forever instead
  (`DeepYields.DeepYieldReached`).
- An operand behind `*` whose text is a star is refused: `1 * "*"` does not parse,
  `"*" * 1` does (`Grammar.StarString`; the exact condition is in
  `Grammar.PrecedenceCorrect` and `Grammar.ParsesShape`).
- A semicolon ends only the operand in front of it: `1 + 2; -3` on one line is the one
  expression (1 + 2) - 3 (`Statements.SemicolonPassed`; when a statement ends at its
  semicolon is `Statements.StatementEnds`).
- The value of `a, b = [1, 2]` is 2: a multiple assignment has the value of its last
  variable, not the array (`Meanings.AssignedIsRead`).
- A backslash with a digit sequence that is broken off stands for nothing, and takes
  the character behind it along (`Literals.LiteralRead`).
- A surplus positional argument is dropped where a keyword parameter is left open:
  `f(v, w)` with `def f(a, k: d)` (`ArgumentErrors.ArgumentDropped`).
- With as many arguments as normal parameters, keyword arguments count: `f(k: v)` with
  `def f(a, k:)` binds `a`, too, to v (`ArgumentErrors.KeywordTaken`).
- A printed string that holds a NUL is read back shortened, from the character in
  front of the first hidden NUL on (`Escaping.PrintedStringsReadBack`).
- The smallest 64-bit integer prints as source that does not parse
  (`Rebuilding.IntegerReadsBack`).
- `map` goes on over the elements behind a `break`, without running the block, and
  has nil for them (`Threads.Thread.MapElements`).
- Including into Object makes the superclass pointers a cycle, and failing lookups
  run forever (`Hierarchies.IncludeStops`); so does giving a class itself as its
  superclass, for `ancestors` (`Hierarchies.InheritIsFinite`).
- `alreadyInherit` compares with the module, of which only copies are above a class as
  long as the module is no class's superclass (`Hierarchies.Hierarchy.NeverNoticed`;
  defining classes and modules, `include` and `extend` never make it one), so a
  repeated `include` is not noticed (`Hierarchies.IncludeTwice`).
- The metaclass of Class has no superclass, and neither has the metaclass of a class
  below one without a metaclass. A chain ends at Object exactly if none of these is on
  it (`Hierarchies.Hierarchy.RootedExactly`). A class defined below Class ends at Object;
  its metaclass does not, and its `ancestors`, and `extend` on the class, dereference
  nil (`Hierarchies.BelowClass`).
- `reverseString` is not its own inverse on text that begins with a combining mark
  and has more than one cluster, or holds an invalid rune (`Reversal.ReverseTwice`).

## Model

| member | source | states |
|---|---|---|
| Pipeline.CompilerCorrect | compiler/bytecode/generator.go:54-69 | For every well-formed program, host and number of elide passes: the emitted, patched and elided code ends with the locals, definitions, world and value of the tree evaluator, or with its error; and it runs forever exactly when no fuel is enough for the evaluator |
| Pipeline.ElidedProgramRuns | vm/instruction.go:33-72 | Whatever the evaluator comes to, elided code comes to, and elided code halts in the same states as the original |
| Pipeline.ElidedHaltsAsEvaluated | vm/instruction.go:33-72 | When elided code halts, it halts as the evaluator with enough fuel says |
| Pipeline.ElidedDivergence | compiler/bytecode/statement_generation.go:60-88 | Elided code runs forever exactly when the evaluator never ends |
| Pipeline.CodeStaysAligned | compiler/bytecode/instruction.go:75-124 | Walking a set by the operand-count table lands on its end, branch targets are boundaries of the set or its end, constant indices are in range, and every frame of every run stands at a boundary or at the end, before and after eliding |
| Runs.RunProgram | compiler/bytecode/generator.go:54-69 | Generator and interpreter together: a program that halts within the budget is run to its end, and what is run to its end ends as evaluated |
| Runs.RunInspected | vm/array.go:839-852 | Lexer, parser, generator and interpreter on the printed text of a value, compiled as the expression statement it is in the mode that keeps the last value: whenever the run ends, the stack holds just the original; it ends when the budget is enough |
| Runs.RebuildingHalts | vm/array.go:839-852 | There is a budget that is enough |
| Correctness.ProgramRuns | vm/instruction.go:11-72 | The machine on a laid-out program reaches the state that matches the evaluator's result, for each way the evaluator can end |
| Correctness.HaltsAsEvaluated | vm/instruction.go:33-72 | A halted machine has halted as the evaluator with enough fuel says |
| Correctness.Divergence | vm/instruction.go:33-72 | Equivalence of running forever and of no fuel being enough |
| Correctness.NeverStuck | vm/stack.go:47-100 | No run of a compiled program underflows the stack, reads a bad operand or jumps out of its code |
| Meanings.OperatorRuns | vm/instruction.go:42-72 | A program that is one of the six operators between any two 64-bit numbers, generated, elided and run, leaves the number congruent to the exact sum or difference modulo 2^64, or the truth of the comparison |
| Meanings.OperatorEvaluates | vm/instruction.go:42-72 | The same of any two expressions that are integers, in any state: the left one is evaluated first, and nothing is called |
| Meanings.OperatorCalls | vm/instruction.go:45-50 | Any other operator or operand: the operator is called on the left value |
| Meanings.WrapsExactly | vm/instruction.go:54-58 | A sum or difference that fits is exact |
| Meanings.IfChooses | compiler/bytecode/expression_generation.go:226-256 | The arm is taken for every value but false and nil; without an `else` the value is nil then |
| Meanings.LogicChooses | compiler/bytecode/expression_generation.go:288-299 | `&&` stops at false and nil, `||` at everything else, with that as the value |
| Meanings.WhileRepeats | compiler/bytecode/statement_generation.go:60-88 | The loop ends at false and nil, or at a break; otherwise the body is run and the loop again |
| Meanings.AssignedIsRead | compiler/bytecode/expression_generation.go:179-211 | What is assigned to variables of the method is read from them, each of several its element, and all its other variables are as before; the value is that of the last variable; several take only an array |
| Meanings.MethodCalled | vm/thread.go:242-304 | A call of a defined method: an argument error exactly under the four conditions, and otherwise the body with the receiver, the bound arguments and the block |
| Scopes.Innermost | compiler/bytecode/local_table.go:39-48 | A name means the variable of the innermost table that has it, and none exactly if no table has it |
| Scopes.Declares | compiler/bytecode/local_table.go:28-37 | Declaring a known name changes nothing; an unknown one gets the next slot of the innermost table, and no other name moves |
| Scopes.BlockParameters | compiler/bytecode/expression_generation.go:213-224 | A block's parameters are its own first locals, in order, whatever is declared around it |
| Simulation.ExprSim | compiler/bytecode/expression_generation.go:18-93 | Code of any well-formed expression at any offset: run from its first slot to one past its last it leaves the old stack and exactly the evaluator's value, and the evaluator's locals |
| Simulation.InfixSim | compiler/bytecode/expression_generation.go:282-313 | The same for arithmetic, comparison and operator calls, with wrap-around and the fall back to a call |
| Simulation.LogicSim | compiler/bytecode/expression_generation.go:288-299 | The same for `&&` and `||`: the right operand is evaluated exactly when the left one does not decide |
| Simulation.AssignSim | compiler/bytecode/expression_generation.go:179-211 | The same for single and multiple assignment through expand_array |
| Simulation.IfSim | compiler/bytecode/expression_generation.go:226-256 | The same for elsif chains: the first true condition selects its body, an absent one gives nil |
| Simulation.MinusSim | compiler/bytecode/expression_generation.go:266-269 | Unary minus is a send of `-` to 0 |
| Simulation.CallSim | compiler/bytecode/expression_generation.go:124-177 | The same for calls with positional and keyword arguments and a block |
| Simulation.StmtsSim | compiler/bytecode/statement_generation.go:16-58 | Code of a statement list: statement values are popped, the stack is as high as before, and return, break and continue leave where they should |
| Simulation.WhileSim | compiler/bytecode/statement_generation.go:60-88 | Loops with break and continue, any number of rounds |
| Simulation.JumpOutSim | compiler/bytecode/statement_generation.go:90-113 | break and continue in a method or program jump to the loop's exit and to its condition with the stack at the loop's height |
| Simulation.InvokeSim | vm/thread.go:340-367 | A call: missing method, builtin, and compiled method with its bound locals, replaced by one value |
| Simulation.YieldSim | vm/instruction.go:464-496 | yield at most one block deep runs the block of the method the code stands in, and replaces receiver and arguments by one value |
| Yields.YieldRunsHomeBlock | vm/instruction.go:464-496 | In every state of every run of any code: yield runs the block of the method its text stands in if and only if it stands at most one block deep, and otherwise the block that encloses it |
| DeepYields.DeepYieldReached | vm/instruction.go:464-496 | A generated program comes to a yield two blocks deep; the evaluator calls it an error, and the machine enters the enclosing block again and never halts |
| Yields.RunLinked | vm/instruction.go:424-489 | In every such state a block's frame has the environment of its block, and blocks and environments belong to frames further down |
| Simulation.DefaultsSim | compiler/bytecode/statement_generation.go:165-204 | The prologue evaluates each default in order and sets only parameters the call left unset |
| Simulation.ParamLocal | compiler/bytecode/statement_generation.go:165-204 | With defaults that declare nothing, parameter i is local i |
| Stores.StoresSound | compiler/bytecode/expression_generation.go:188-210 | The stores of a multiple assignment give each variable its element, nil where there is none, and leave the assigned value |
| Steps.ExpandSound | vm/instruction.go:207-231 | expand_array pushes the elements so that the first is on top, nil for missing ones |
| Locals.AddressSound | compiler/bytecode/local_table.go:39-48 | The (index, depth) of a name leads over depth ep links to the activation that declares it, and to the slot with that name |
| Locals.ReadSound | vm/call_frame.go:116-130 | Reading an address gives the last value assigned to that source variable, from any nested block |
| Locals.StoreSound | vm/call_frame.go:139-158 | insertLocal assigns the variable the evaluator assigns, and no other |
| Locals.InsertMisplaces | vm/call_frame.go:139-158 | An assignment through depth reaches the declaring frame if and only if the slot exists there already |
| Misplaced.AssignmentIsLost | vm/call_frame.go:139-158 | A well-formed program that declares a local in a branch it does not take and assigns it in a block: compiled and run, it comes to that assignment with the slot unset, and ends with the local nil |
| Misplaced.NoMeaning | vm/call_frame.go:139-158 | The evaluator gives the program no meaning |
| Activation.Activated | vm/thread.go:89-107 | Entering a frame, running its body and leaving it is one activation of the evaluator |
| Machine.Fill | vm/call_frame.go:171-185 | After a write slot i holds the value, and every other slot what it held, set or not |
| Elide.ElideInPlace | compiler/bytecode/instruction.go:283-299 | The in-place pass, which reads slots it has already changed, computes the specified threading and never reads outside the code |
| Elide.RewrittenAligned | compiler/bytecode/instruction.go:283-299 | One rewriting keeps the set walkable and its targets at boundaries |
| Elide.AlignedReadable | compiler/bytecode/instruction.go:283-299 | Every walkable set meets what the pass needs to read |
| Optimised.RewriteRun | compiler/bytecode/instruction.go:288-296 | After one rewriting any number of steps of the new code are some number, at least as large, of steps of the old code to the same state |
| Optimised.SetsRun | compiler/bytecode/generator.go:64-67 | The same for any list of whole passes |
| Optimised.ElidedSame | compiler/bytecode/instruction.go:283-299 | Elided code halts from a state exactly when the original does, in the very same state; jump cycles diverge in both |
| Optimised.StaysAligned | compiler/bytecode/instruction.go:283-299 | Any passes keep all sets aligned |
| Alignment.CompiledAligned | compiler/bytecode/instruction.go:227-248 | Every set of a compiled program is walkable, with its branch targets and constant operands in range |
| Elide.ElideAchieves | compiler/bytecode/instruction.go:283-299 | At each instruction of aligned code: a jump to the end or to a Leave has become a Leave, a jump to a jump goes where that one goes, and every other instruction and operand is as it was |
| Boundaries.StepKeepsPcs | vm/instruction.go:33-38 | One step keeps every frame at a boundary or at the end |
| Boundaries.RunKeepsPcs | vm/instruction.go:33-38 | So does every run |
| Generation.WriteExpr | compiler/bytecode/expression_generation.go:18-93 | What the generator appends for an expression is laid out as the expression's code, whatever is generated later |
| Generation.WriteWhile | compiler/bytecode/statement_generation.go:60-88 | The same for a loop, with its anchors defined where they point |
| Generation.WriteProgram | compiler/bytecode/statement_generation.go:16-30 | Everything that is generated is laid out as compiled |
| Linking.MeaningDecoded | compiler/bytecode/instruction.go:227-281 | A defined instruction with its operands interned or patched decodes to the instruction meant |
| Patching.GeneratedCompiled | compiler/bytecode/generator.go:54-63 | After patching, the sets are a compiled program |
| Patching.GeneratedSound | compiler/bytecode/generator.go:54-69 | And, for a well-formed source, a sound one |
| Generators.Generator.AddConstant | compiler/bytecode/instruction.go:273-281 | SetConstant returns the first equal entry, or appends |
| Generators.Generator.Define | compiler/bytecode/instruction.go:227-248 | define appends opcode and operands, and returns where an anchor has to be patched |
| Generators.Generator.CompileExpression | compiler/bytecode/expression_generation.go:18-93 | The generator's new state, and the new table, are the specified ones |
| Generators.Generator.CompileAssign | compiler/bytecode/expression_generation.go:179-211 | The same for assignments |
| Generators.Generator.CompileLogic | compiler/bytecode/expression_generation.go:288-299 | The same for the short-circuit operators |
| Generators.Generator.CompileIf | compiler/bytecode/expression_generation.go:226-256 | The same for if |
| Generators.Generator.CompileCall | compiler/bytecode/expression_generation.go:124-177 | The same for calls, with the argument set and the block's set |
| Generators.Generator.CompileBlockArg | compiler/bytecode/expression_generation.go:213-224 | The block's set, one table level deeper |
| Generators.Generator.CompileStatement | compiler/bytecode/statement_generation.go:32-58 | The same for statements |
| Generators.Generator.CompileWhile | compiler/bytecode/statement_generation.go:60-88 | The same for loops; the enclosing loop's anchors are back afterwards |
| Generators.Generator.CompileJumpOut | compiler/bytecode/statement_generation.go:90-113 | break and continue, with Break or Leave in front in a block's set |
| Generators.Generator.CompileDef | compiler/bytecode/statement_generation.go:151-223 | Method definitions with the parameter prologue |
| Generators.Generator.Patch | compiler/bytecode/generator.go:56-63 | Every remembered slot holds its anchor's line |
| Generators.Generator.ElideAll | compiler/bytecode/generator.go:64-67 | Every finished set is elided once |
| Generators.Generator.GenerateInstructions | compiler/bytecode/generator.go:54-69 | A new generator's output for a well-formed program is sound compiled code, elided |
| LocalTables.LocalTable.Set | compiler/bytecode/local_table.go:16-26 | A known name keeps its index, a new one gets the next |
| LocalTables.LocalTable.GetLocal | compiler/bytecode/local_table.go:39-48 | The innermost table that holds the name, with the number of levels to it |
| LocalTables.LocalTable.SetLocal | compiler/bytecode/local_table.go:28-37 | Declares the name here unless some enclosing table has it, and gives its address |
| Interpreters.Interpreter.Execute | vm/instruction.go:11-573 | The interpreter comes to the state the machine comes to after some number of steps, halted if it ended, and has spent its budget if it did not |
| Interpreters.Interpreter.ExecFrame | vm/instruction.go:33-573 | The loop over a frame's code takes the machine's steps, nested calls included, and ends at the code's end with all frames as they were but for locals |
| Interpreters.Interpreter.EvaluateNormalFrame | vm/thread.go:89-107 | Pushing, running and popping a frame are the machine's steps from entering to leaving; the caller's frames are as they were |
| Interpreters.Interpreter.FindAndExecute | vm/thread.go:340-367 | Lookup, builtin or method call: the machine's call step and what follows |
| Interpreters.Interpreter.InvokeBlock | vm/instruction.go:464-496 | yield: the machine's step and what follows |
| Interpreters.Interpreter.NewArrayInstruction | vm/instruction.go:193-205 | Popping into the array from the back is the specified step |
| Interpreters.Interpreter.ExpandArrayInstruction | vm/instruction.go:207-231 | Prepending the elements and pushing them is the specified step |
| Interpreters.Interpreter.InsertLocal | vm/call_frame.go:139-158 | The loop over ep links and the growing list do what Insert says |
| Interpreters.PlainFrames | vm/instruction.go:74-172 | Instructions that call nothing change no frame but for a local |
| CallDiscipline.CallKeepsCaller | vm/thread.go:89-107 | For arbitrary code that does not reach below the receiver: the call is still inside, with everything below it untouched, or has just come back with one value in place of receiver and arguments, the caller's frames as they were |
| CallDiscipline.StepInside | vm/instruction.go:414-496 | One step of that |
| CallDiscipline.PopsNeeded | vm/instruction.go:46-573 | With fewer values on the stack than an instruction takes off, it cannot go on |
| CallObjects.CallObject.BindArguments | vm/thread.go:242-304 | The argument checks and loops give exactly the specified binding or the argument error |
| CallObjects.CallObject.AssignKeywordArguments | vm/call_object.go:66-79 | Each keyword argument goes to the parameter of its name; an unknown one is an error |
| CallObjects.CallObject.AssignNormalAndOptionedArguments | vm/call_object.go:56-64 | The next positional argument behind lastArgIndex, if there is one |
| CallObjects.CallObject.AssignNormalArguments | vm/call_object.go:47-54 | The normal parameters take the arguments in order |
| CallObjects.CallObject.AssignSplatArgument | vm/call_object.go:81-90 | The arguments from argIndex on, as an array |
| ArgumentErrors.BindFails | vm/thread.go:261-293 | The binding is an argument error if and only if there are more arguments than parameters and no rest parameter, or fewer than normal parameters, or a required keyword is missing, or a keyword has no parameter |
| ArgumentErrors.CallFails | vm/thread.go:261-293 | The same over parameters and arguments as they are written |
| ArgumentErrors.CallBinds | vm/call_object.go:47-79 | Every call that is not refused, without a rest parameter: what each slot holds, by the parameter's kind, number and name |
| ArgumentErrors.ArgumentDropped | vm/thread.go:295-304 | `f(v, w)` with `def f(a, k: d)` is not refused, and w is in no slot |
| ArgumentErrors.KeywordTaken | vm/call_object.go:47-54 | `f(k: v)` with `def f(a, k:)` is not refused, and v is in both slots |
| BindingLaws.InterleavedBinding | vm/call_object.go:47-79 | Positional parameter i gets positional argument i wherever keywords stand, each keyword parameter its argument, all else stays unset, and no error is raised |
| BindingLaws.RestBinding | vm/call_object.go:56-90 | The first parameters take the arguments in order, the rest parameter exactly the remaining ones |
| Prologue.PrologueFills | compiler/bytecode/statement_generation.go:165-204 | Defaults that have a value when their turn comes, in the same state: the prologue gives exactly the unset parameters these values, and changes nothing else |
| Prologue.QuietPure | compiler/bytecode/statement_generation.go:165-204 | Literals, the method's variables, arrays and short-circuit operators over them, and integer operators where the operands are integers, are such defaults |
| Prologue.AlwaysPure | compiler/bytecode/statement_generation.go:165-204 | Without integer operators they are, whatever the call was |
| Prologue.RestParameter | vm/instruction.go:146-157 | After binding and prologue: the first min(k, m) parameters in order, the others their defaults, the rest parameter the remaining arguments, empty if none |
| Threads.Thread.EvaluateNormalFrame | vm/thread.go:89-107 | For any code: the frame is entered once and off the frame stack afterwards, popped by its own break or here but not twice; its run is on record, from the state at the call to the value on top, and so is that of everything entered meanwhile; the callers' frames, currentFrame, frames set aside and, if the code keeps to its part of the stack, all values below are as before; a block's frame is marked exactly if a run of it broke |
| Threads.Thread.ExecFrame | vm/instruction.go:11-72 | A complete run: the frame's code turn by turn, then each frame that its Defer instructions have set aside, entered once, the last one first, with the arguments it was registered with; the value is the one the code left |
| Threads.Thread.RunCode | vm/instruction.go:29-72 | The loop: from the first instruction with the arguments as first locals to the end of the code, one turn after the other, each doing what the instruction at its pc says; it ends in a break exactly if the last instruction is one in a block |
| Threads.Thread.OneTurn | vm/instruction.go:33-72 | One turn: Defer sets a frame aside, and only Defer does; any other instruction as in Instruction |
| Threads.Thread.RunDeferred | vm/instruction.go:14-26 | The runner: each pending frame once, last first, and stack, pointer and frames as before |
| Traces.DeferredRun | vm/instruction.go:14-26 | In every record of a thread, for every finished frame: each block its code has deferred has exactly one run, with the registered locals, begun after the frame was entered and before it was left, and of two the one registered later is run first |
| Threads.Thread.Register | vm/instruction.go:523-565 | A block is registered with copies of the receiver and the arguments on the stack, and nil left in place of the arguments |
| Threads.Thread.Instruction | vm/instruction.go:33-573 | A plain instruction does what the machine's does to stack, pc, environments, methods and world; a call instruction calls; a break in a block ends the frame |
| Threads.Thread.PlainInstruction | vm/instruction.go:46-296 | Reading, writing, branching, arrays and integers are the machine's step on the frame and its environments |
| Threads.Thread.InsertLocal | vm/call_frame.go:139-158 | insertLocal through frame objects is the machine's on the list of environments; no frame in which no block stands is changed |
| Threads.Thread.CallInstruction | vm/instruction.go:414-496 | Send, BinaryOperator and InvokeBlock: what is passed as block, what is run, from which state and to which, and one value, the one left by what was run, in the place of receiver and arguments |
| Threads.Thread.InvokeBlock | vm/instruction.go:464-496 | What is run is the block's code, in a frame with the arguments as locals and the receiver as self, and its value replaces them |
| Threads.Thread.FindAndExecute | vm/thread.go:340-367 | What is run is the defined method, in a frame with its arguments bound and the block passed, or the builtin; its value replaces receiver and arguments; only the passed block can have been run by a builtin |
| Threads.Thread.EvaluateGoFrame | vm/thread.go:67-87 | A builtin's frame is pushed and popped exactly once, and its result, the host's or that of each or map, pushed |
| Threads.Thread.BreakFrame | vm/instruction.go:298-303 | break pops the running frame, stops it and marks it and the block's frame |
| Threads.Thread.Each | vm/array.go:361-386 | The block is run for the elements in turn, up to the last or the first run in which it is marked, and by no builtin else; each is a complete run of a frame of the block with the element as its only local, and nothing else is run; methods and world pass from one to the next; each returns the array; a block that begins with Leave is not run |
| Threads.Thread.MapElements | vm/array.go:564-587 | The same, and map has the values these runs left up to the one that broke, nil for that element and every later one |
| Threads.Thread.Yield | vm/thread.go:151-170 | A removed block gives nil without being run; of any other there is one complete run with the element, whose value is given unless the block is marked afterwards, which it is exactly if some run of it in between was ended by a break |
| Traces.BreaksFound | vm/thread.go:151-170 | A block not marked before is marked after some code exactly if one of its runs in between was ended by a break |
| Threads.Thread.ExecInstructions | vm/vm.go:157-178 | A program that ends leaves no frame; its run, and that of everything entered, is on record |
| Builtins.BlockVisited | vm/array.go:361-386 | In any record: `each` and `map` have run the block for the first elements in turn, one complete run for each, up to the last or to the first run with a break in it; `each` gives the array, `map` the values these runs have left, then nil |
| Builtins.EmptyNotRun | vm/array.go:361-386 | A block without code, or whose code begins with Leave, is not run; `map` has nil for every element |
| Builtins.TargetIs | vm/instruction.go:464-489 | In a method's frame `yield` runs its own block, in a block's the block of the frame the text stands in |
| Builtins.YieldRuns | vm/instruction.go:464-496 | With the receiver as self and the arguments, in order, as its first locals |
| Builtins.DeferKeeps | vm/instruction.go:523-565 | What is set aside: the block, the receiver and the arguments in order |
| CallFrames.InsertChain | vm/call_frame.go:116-158 | Storing through environment links is storing in the list of environments |
| CallFrames.ChainClimb | vm/call_frame.go:116-130 | depth links up is the frame the machine climbs to |
| Events.KeptTwice | vm/thread.go:89-107 | What one stretch of running code keeps, and the next, both keep |
| Stacks.Stack.Push | vm/stack.go:22-29 | Over a slot above the pointer, or a grown slice |
| Stacks.Stack.Pop | vm/stack.go:47-66 | The top value; at the bottom the pointer stays |
| Stacks.Stack.Discard | vm/stack.go:69-80 | Pop without the value |
| Stacks.Stack.Replace | vm/thread.go:306-310 | The top value goes to the receiver's slot, which is then the top |
| CallFrames.CallFrameStack.Push | vm/call_frame.go:250-262 | The frame is on top |
| CallFrames.CallFrameStack.Pop | vm/call_frame.go:264-280 | The top frame |
| Lexers.Lexer.NextToken | compiler/lexer/lexer.go:47-251 | The token, the new position, line and state the reading functions give |
| Lexers.Lexer.ReadString | compiler/lexer/lexer.go:317-346 | The literal's text and the position behind it |
| Lexers.Lexer.EscapeSequence | compiler/lexer/lexer.go:401-470 | The rune an escape stands for |
| Literals.LiteralRead | compiler/lexer/lexer.go:317-470 | Any row of pieces between either kind of quotes: characters, the seven letters, `\x`, `\u` and `\U` with all their digits in either case, three octal digits, a backslash before any other character, and digit sequences that are broken off; the string that is read is the one they mean |
| Literals.EveryRune | compiler/lexer/lexer.go:401-470 | Every rune is read back from its code point behind `\x`, `\u` or `\U`, if that has as many digits, in either case |
| Scanning.LongestOperator | compiler/token/token.go:124-187 | Of the operators and separators, by their spelling, the longest that stands at a position is read |
| Scanning.ReservedWords | compiler/token/token.go:98-180 | Which words have a meaning of their own |
| Scanning.WordRead | compiler/lexer/lexer.go:47-251 | A word goes as far as its letters, digits and underscores, with one question or exclamation mark, and is the reserved word or the name |
| Scanning.MethodNameRead | compiler/lexer/lexer.go:47-251 | Behind `def` or a dot it is a name, whatever the word |
| Scanning.ColonRead | compiler/lexer/lexer.go:47-251 | `::`, a symbol, or a colon by itself |
| Scanning.QuotedRead | compiler/lexer/lexer.go:47-251 | What a word in back quotes is |
| Scanning.CommentSkipped | compiler/lexer/lexer.go:47-251 | A comment is skipped up to the end of its line |
| Escaping.InspectIsMap | vm/string.go:685-703 | The replacement passes are one map over the characters |
| Escaping.InspectOne | vm/string.go:695-703 | How each character is printed |
| Escaping.PrintedStringsReadBack | vm/string.go:685-703 | A printed string is read back whole, the reader at the end of the input, exactly if no NUL is hidden in it; any other comes back as a shorter prefix |
| Escaping.NoNulNothingHidden | vm/string.go:695-703 | Every NUL-free string is one of those that are read back |
| Escaping.PrintedStringsLex | compiler/lexer/lexer.go:317-346 | It lexes as one string token and the end of the input, exactly then |
| Grammar.PrecedenceCorrect | compiler/parser/expression_parsing.go:90-152 | For every line of operands (signed, grouped) and binary operators: a tree with these tokens that is correctly shaped, by the tiers of the operator kinds, exists and is unique; it is what is parsed, unless a token whose text is a star follows the operator `*`, and then the line is refused |
| Grammar.TwoOperators | compiler/parser/precedence/precedence.go:24-49 | Any two binary operators between three operands: the right one is taken in exactly if the left one is `&&` or `||` or the right one is of a tighter kind, by the list of kinds; otherwise the left pair is grouped |
| Grammar.LinesApart | compiler/parser/expression_parsing.go:128-149 | Nothing on the next line belongs to an expression, an operator neither |
| Grammar.NameWithArgument | compiler/parser/expression_parsing.go:107-122 | A name with the beginning of an argument behind it on its line is not read as the name |
| Statements.StatementEnds | compiler/parser/expression_parsing.go:128-149 | A statement with a semicolon behind it ends there if and only if it is a single operand or a group, or what follows is neither a semicolon nor, on the same line, something that can stand between operands |
| Statements.SemicolonPassed | compiler/parser/expression_parsing.go:128-149 | `a s b; p c` on one line is (a s b) p c, for any two binary operators |
| Grammar.StarString | compiler/parser/expression_parsing.go:217-235 | `1 * "*"` is refused, `"*" * 1` is not |
| Grammar.SameTokensSameTree | compiler/parser/precedence/precedence.go:24-60 | Correctly shaped trees with the same tokens are the same |
| Parsers.Parser.ParsePrefix | compiler/parser/parser.go:66-92 | The prefix functions by token kind, and which constructs give none here |
| Grammar.ParsesShape | compiler/parser/precedence/precedence.go:24-60 | The order of the operator kinds: the two logical ones, then `==` `!=` `===` `!==`, then `=~` `<` `<=` `>` `>=`, then `+` `-` `%`, then `/` `*` `**`; every correctly shaped expression is parsed as itself if and only if no token whose text is a star follows an operator `*` |
| Parsers.Parser.ParseExpression | compiler/parser/expression_parsing.go:90-152 | The result and the current token afterwards are those of the grammar function, over the tokens the lexer reads |
| Parsers.Parser.ParseInfixExpression | compiler/parser/expression_parsing.go:217-235 | The same for an operator and its right operand |
| Parsers.Parser.ParsePrefixExpression | compiler/parser/expression_parsing.go:337-353 | The same for signs |
| Parsers.Parser.ParseGroupedExpression | compiler/parser/expression_parsing.go:162-175 | The same for groups |
| Parsers.Parser.ParseArrayElements | compiler/parser/data_type_parsing.go:113-135 | The same for array elements |
| Parsers.Parser.NextToken | compiler/parser/parser.go:198-201 | Two tokens in step with the lexer |
| Parsers.TokensEnd | compiler/lexer/lexer.go:47-251 | Every text has finitely many tokens before the end of the input or an illegal token |
| Parsers.ParseStays | compiler/parser/expression_parsing.go:90-152 | No expression goes past that token |
| Printing.PrintedTreesReadBack | compiler/ast/expressions.go:165-200 | Lexing and parsing the text of any tree of integers, names, signs and binary operators gives the tree back |
| Printing.PrintedForms | compiler/ast/expressions.go:165-200 | An infix expression is printed as operand, space, the operator as it is spelled, space, operand, in parentheses; a prefix right before its operand |
| ReadBack.ReadPrinted | compiler/ast/expressions.go:165-200 | The same for lexer and parser at work |
| ReadBack.ReadInspected | vm/array.go:839-852 | Lexer and parser read a printed value as the value's tree |
| Rebuilding.TextParses | vm/array.go:839-852 | The text of any nesting of arrays of integers, booleans, nil and strings lexes to the value's tokens and parses to its tree |
| Rebuilding.InspectRebuilds | vm/array.go:839-852 | And the elided code generated for the statement of that tree ends with just the value on the stack |
| Rebuilding.InspectForms | vm/array.go:839-852 | The printed forms of booleans, nil and arrays |
| Rebuilding.IntegerReadsBack | compiler/parser/data_type_parsing.go:14-21 | Of all 64-bit integers exactly the smallest does not read back |
| Rebuilding.DecimalParses | compiler/parser/data_type_parsing.go:14-21 | A printed number has no leading zero and is read in base ten |
| Rebuilding.OctalParses | compiler/parser/data_type_parsing.go:14-21 | A number with a leading zero is read in base eight |
| Rebuilding.NoOctal | compiler/parser/data_type_parsing.go:14-21 | And refused if it has a digit of 8 or 9 |
| Hierarchies.Hierarchy.constructor | vm/class.go:928-996 | Object, Class and Module and their metaclasses, six different classes with the chains they have; only the metaclass of Class has no superclass, and only its chain does not end at Object |
| Hierarchies.BootIsChained | vm/class.go:928-996 | These chains are the ones the superclass links lead along |
| Hierarchies.Hierarchy.RootedExactly | vm/class.go:1201-1213 | A chain ends at Object if and only if no class without a superclass is on it; as long as only the metaclass of Class has none, if and only if that is not on it |
| Hierarchies.InheritedByLinks | vm/class.go:1160-1170 | alreadyInherit told by the superclass links alone: the classes they lead to, up to Object or to a class without a superclass |
| Hierarchies.RootLast | vm/class.go:1201-1213 | Object can only be the last class of a chain |
| Hierarchies.Hierarchy.InitClass | vm/class.go:896-901 | A new class below Object, its metaclass below Object's; where these and all other chains end, and no module becomes a superclass |
| Hierarchies.Hierarchy.InitModule | vm/class.go:904-915 | The same for a new module below Object, its metaclass below Module |
| Hierarchies.Hierarchy.DefineClass | vm/instruction.go:378-405 | The same for a class below the one named, its metaclass below that one's, or below none if that has none; inheriting from a module is refused, and leaves the class that is stored by then below Object |
| Hierarchies.RClass.SetSuperClass | vm/class.go:1066-1072 | The chains through the class go on along the new superclass's, and end where that ends |
| Hierarchies.RClass.Inherits | vm/class.go:1066-1072 | Both superclass links change, and with them exactly the chains through them |
| Hierarchies.BelowClass | vm/class.go:1201-1213 | A class defined below Class has its ancestors; for its metaclass ancestors, and for the class extend, dereference nil |
| Hierarchies.InheritIsFinite | vm/class.go:1066-1072 | Chains stay finite exactly if the class is not on its new superclass's chain |
| Hierarchies.RClass.Include | vm/class.go:272-301 | The error cases, and the copy of the module behind the class on every chain through it; the end of no chain moves, and no module becomes a superclass |
| Hierarchies.RClass.Extend | vm/class.go:248-269 | The same for the metaclass |
| Hierarchies.IncludeLookups | vm/class.go:294-298 | Lookups change only for the class and its descendants: what they or a class up to it define, then the module's, then what was found before |
| Hierarchies.Hierarchy.NeverNoticed | vm/class.go:1160-1170 | A module that is no class's superclass is on no chain but its own, so alreadyInherit never finds it |
| Hierarchies.IncludeTwice | vm/class.go:290-298 | A module just included is not noticed, and a second copy changes no lookup |
| Hierarchies.IncludeStops | vm/class.go:294-298 | Failing lookups stay finite exactly if the class is not Object |
| Hierarchies.MixedInVisible | vm/class.go:294-298 | Methods added to a module at any time are found by classes that have a copy of it on their chain |
| Hierarchies.RClass.DefineMethod | vm/instruction.go:323-342 | Found by exactly the classes with the table on their chain and no earlier definition; no other lookup changes |
| Hierarchies.RClass.LookupMethod | vm/class.go:1091-1102 | The first definition along the superclass chain |
| Hierarchies.FirstIsFirst | vm/class.go:1091-1102 | None before it defines the name; none found means none defines it |
| Hierarchies.RClass.AlreadyInherit | vm/class.go:1160-1170 | Whether the class itself is further up the chain, or a nil superclass is run into |
| Hierarchies.RClass.Ancestors | vm/class.go:1201-1213 | The superclass chain if it ends at Object, and otherwise a nil dereference |
| Hierarchies.RClass.IsA | vm/class.go:1221-1235 | Whether the class, or one of its name, is on the chain |
| Hierarchies.RedirectLast | vm/class.go:1066-1072 | Where chains end after a new superclass |
| Hierarchies.InsertLast | vm/class.go:294-298 | include moves the end of no chain |
| Reversal.ReverseString | vm/string.go:859-887 | The nested loops over the array compute the clusters in reverse order |
| Reversal.KeepsValidRunes | vm/string.go:859-887 | The reversed text has exactly the runes of the text, each as often, but for U+FFFD, which is dropped |
| Reversal.ReversesClusters | vm/string.go:859-887 | A text given as clusters comes out as the same clusters from the last to the first |
| Reversal.ReversedClusters | vm/string.go:859-887 | Cluster k of the result is cluster n - 1 - k of the text, unchanged inside |
| Reversal.ReverseTwice | vm/string.go:859-887 | Its own inverse exactly on text without invalid runes that does not begin with a mark or is one cluster |

## Left out

- Programs that are not well formed in the sense of `WellFormed`: the block of a call and an `else` are not empty; these, and method bodies and branches that are not empty, end in an expression whose value is kept or in a jump; `break` and `continue` stand where statements stand, in a loop of a method or of the program; block parameters are distinct; defaults of parameters declare no locals; `defer` is not called.
- Runs the evaluator calls `Undefined`: an assignment to an outer slot that was never assigned, more values yielded than the block declares, and a block passed to a builtin inside compiled code (what builtins that run blocks do to frames and stack is in `Threads`, for any code).
- `break` and `continue` inside a block, in the compiler theorem: in a block's set they emit Break or Leave first. The generator's code for them is modelled, their effect on frames is in `Threads`.
- Threads.Thread.EvaluateNormalFrame: says nothing of runs that end in an error or exhaust the budget; the values below are kept as far as the code does not reach below its frame's part of the stack.
- Threads.Thread.Method: of the builtins that run blocks, `each` and `map` of arrays; a block passed to another builtin stops the model.
- Threads.Thread.FindAndExecute: the same, and a method that is not found is an error at once.
- Interpreters.Interpreter.Execute: takes a budget of instructions, because the loop need not end; the theorems about running forever are stated for the machine's steps.
- The frames of the machine are an explicit list and refer to each other by position; instruction sets, argument sets and anchors are numbers instead of pointers. Blocks that outlive the frame they were written in, and so block objects (`block!`), are not modelled.
- Names are numbers, so a name and a string literal of the same text do not share a slot of the constant pool.
- One generator run: a program is compiled once; compiling further input with the same generator (the interactive mode) is not modelled.
- Constants, classes, modules and instance variables in compiled code, floats, ranges, hashes, `switch`, `super`, splatted arguments and splatted blocks, `method_missing`, and the call of `init` by `new`.
- The flags of stack slots (super reference and namespace).
- Error objects, messages, stack traces and source lines: an error is one terminal outcome. The parser goes on to the end of the statement after an error; only that there is one is modelled.
- In the parser: statements other than expressions, calls, blocks, assignments, indexing, ranges, hashes and `if`; the state machine for assignments and parameters. Where these begin, the grammar functions give no tree.
- Simulation.YieldSim: speaks of code at most one block deep, because a deeper yield runs another block (`Yields.YieldRunsHomeBlock`).
- Hierarchies.RClass.Include: presupposes a class other than Object; what happens with Object is in `Hierarchies.IncludeStops`.
- The type and argument-count checks in front of `include` and `extend`, singleton classes made later, and the fallback to a `lookup` method.
- Runes are characters: invalid UTF-8 is the replacement character already. Which runes are combining marks is a parameter of `Reversal`.
- Values are immutable: arrays that share a backing slice, and the builtins that change an array in place.
- Files, `require`, threads, channels, locks, JSON, regular expressions and the command line.

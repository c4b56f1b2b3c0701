# CodesPqp in Dafny

CodesPqp is a small scripting language whose keywords are Portuguese words.
`VAR` declares a variable, `FUNCAO` a function and `RETORNA` returns from one.
`ESCREVEAI` prints and `LEIA` reads a line. `SE`/`SENAO` is if/else and `VOLTAINFINITA` is a while loop.
`ESCOLHEAI`/`CASO`/`PADRAO` is a switch and `PAREI` breaks out of it. `ISSOAI`, `MENTIRA` and `NULO` are true, false and null.
A program goes through a pipeline:

- a hand-written scanner turns the text into tokens;
- a recursive-descent parser turns the tokens into a syntax tree;
- the tree is then used in four ways:
  - a tree-walking interpreter runs it;
  - a single-pass compiler turns it into a bytecode chunk, which a stack virtual machine runs;
  - a printer writes the tree as nested HTML lists;
  - a collector gathers the expressions that the statements hold.

This project models each of these components in Dafny and proves properties of the model.
Where the Java code computes with loops and fields, the model is a class with those fields.
Each of its methods is proved to leave the state exactly as a pure function of the old state says.
The properties themselves are proved as lemmas about those functions.

| file | module | models |
|---|---|---|
| wrappers.dfy | Wrappers | `Option` and `Result` |
| java_int.dfy | JavaInt | 32-bit `int` arithmetic with wrap-around, truncating `/` and `%`, `Integer.toString` and `Integer.parseInt` |
| java_double.dfy | JavaDouble | which strings `Double.parseDouble` accepts |
| values.dfy | Values | runtime values, truthiness, equality, `stringify` and the value of an input line |
| tokens.dfy | Tokens | token kinds and tokens |
| ast.dfy, legacy_ast.dfy | Ast, LegacyAst | the syntax tree, and the older tree the collector is written against |
| opcodes.dfy | OpCodes | the opcode enumeration and its byte encoding |
| precedence.dfy | Precedences | the precedence levels |
| chunk.dfy | Chunks | the chunk: code, constants and lines |
| compiler.dfy, compiler_impl.dfy | BytecodeCompiler, BytecodeCompilerImpl | the compiler, as functions and as the class that appends to its chunk |
| jumps.dfy, compiled_steps.dfy | JumpTargets, CompiledSteps | what the VM does with the jumps and the straight-line code the compiler lays out |
| vm.dfy | VirtualMachine, VirtualMachineImpl | the virtual machine, as a step function and as the class with its fetch-decode loop |
| scanner.dfy, scanner_impl.dfy | Scanning, ScannerImpl | the scanner |
| parser.dfy, parser_impl.dfy | Parsing, ParserImpl | the parser |
| interpreter.dfy, interpreter_impl.dfy | Interpreting, InterpreterImpl | the tree-walking interpreter and its environments |
| html_printer.dfy | AstHtml | the HTML printer of the syntax tree |
| expr_collector.dfy | ExprCollection | the expression collector |

Source paths below are relative to the repository root.

## Model

| member | source | states |
|---|---|---|
| Chunks.ChunkData.Write | src/ByteCode/Chunk.java:26-29 | appending a byte grows the code and line lists by exactly that byte and line, leaves the pool alone and keeps code and lines in step |
| Chunks.ChunkData.WriteOp | src/ByteCode/Chunk.java:21-24 | appending an opcode stores its ordinal, which decodes back to the same opcode; the pool is untouched |
| Chunks.ChunkData.AddConstant | src/ByteCode/Chunk.java:31-35 | the returned index is the old pool size and names the value just appended; code and lines are untouched |
| Chunks.AddConstantNeverShares | src/ByteCode/Chunk.java:31-35 | the pool never deduplicates: adding one value twice gives two distinct indices holding the same value |
| Chunks.Chunk.constructor | src/ByteCode/Chunk.java:15-19 | a new chunk has empty code, pool and line lists |
| Chunks.Chunk.Write | src/ByteCode/Chunk.java:26-29 | the in-place write leaves the chunk equal to the pure append and keeps code and lines in step |
| Chunks.Chunk.WriteOp | src/ByteCode/Chunk.java:21-24 | the in-place opcode write equals the pure append of the opcode's ordinal |
| Chunks.Chunk.AddConstant | src/ByteCode/Chunk.java:31-35 | the in-place pool append returns the same index and state as the pure append |
| Chunks.Chunk.SetCode | src/ByteCode/Compiler.java:245-252 | back-patching overwrites exactly one code position; pool and lines are untouched |
| OpCodes.Ordinal | src/ByteCode/OpCode.java:3-39 | an opcode's byte is its position in the enum's declaration order, below the number of opcodes |
| OpCodes.Decode | src/ByteCode/VM.java:33-38 | a fetched byte decodes exactly when it is one of the 25 ordinals, and then back to the opcode with that ordinal |
| OpCodes.OrdinalsInOrder | src/ByteCode/OpCode.java:3-39 | the i-th declared opcode has ordinal i |
| OpCodes.DecodeOrdinal | src/ByteCode/VM.java:33-38 | decoding an opcode's byte round-trips to the opcode |
| OpCodes.OrdinalInjective | src/ByteCode/OpCode.java:3-39 | distinct opcodes are stored as distinct bytes |
| VirtualMachine.StepWidth | src/ByteCode/VM.java:38-152 | the operand widths of the opcode table are what the VM consumes: after a continuing step `ip` is one past the opcode plus one byte for `CONSTANT` and the three global opcodes, two for the three jumps (then plus the operand for `JUMP`, minus it for `LOOP`, plus it or nothing for `JUMP_IF_FALSE`) and none for every other opcode, and those operand bytes lie inside the code |
| OpCodes.Extremes | src/ByteCode/OpCode.java:3-39 | RETURN is byte 0, INPUT byte 24, and the local-variable opcodes bytes 18 and 19 |
| Precedences.Level | src/Sintatica/Precedence.java:4-14 | a level's number is its position in the declared order |
| Precedences.Successor | src/Sintatica/Parser.java:250-255 | the next-tighter level exists for every level but PRIMARY and is exactly one step above |
| Precedences.LevelInjective | src/Sintatica/Precedence.java:4-14 | distinct levels have distinct ordinals, so comparing ordinals is a strict order |
| Precedences.Bounds | src/Sintatica/Precedence.java:4-14 | NONE is the loosest level and PRIMARY the tightest |
| Precedences.BinaryLevelsHaveSuccessors | src/Sintatica/Parser.java:250-255 | the levels of the binary operators each have a strictly tighter successor, so the right operand parse never fails for lack of one |
| JavaInt.Wrap32 | src/ByteCode/VM.java:199-206 | the result is a 32-bit value congruent to the exact result modulo 2^32, and equal to it when it already fits |
| JavaInt.TruncDiv | src/ByteCode/VM.java:203-204 | integer division rounds toward zero: the magnitude is the quotient of magnitudes and the sign follows the operands' signs |
| JavaInt.DivBounds | src/ByteCode/VM.java:203-204 | the natural quotient brackets the dividend between q*y and (q+1)*y |
| JavaInt.TruncRem | src/Semantica/Interpreter.java:95-98 | the remainder completes the truncating division, is smaller than the divisor in magnitude and takes the dividend's sign |
| JavaInt.NatToDigits | src/ByteCode/VM.java:221-231 | printing a natural number gives a non-empty string of decimal digits |
| JavaInt.ParseInt | src/ByteCode/VM.java:122-124 | a successful integer parse always yields a 32-bit value |
| JavaInt.DigitsRoundTrip | src/ByteCode/VM.java:221-231 | the printed digits of n read back as n |
| JavaInt.ParseIntOfIntToString | src/ByteCode/VM.java:118-133 | reading back an int the program printed gives the same int |
| JavaDouble.Trim | src/ByteCode/VM.java:125-126 | the trimmed text is no longer than the input and starts and ends with a character above U+0020 |
| JavaDouble.RunEnd | src/ByteCode/VM.java:125-126 | the scanned run stays in bounds, holds only (hex) digits and stops at the first non-digit |
| JavaDouble.SkipSign | src/ByteCode/VM.java:125-126 | skipping an optional sign never moves backwards or past the end |
| JavaDouble.SkipSuffix | src/ByteCode/VM.java:125-126 | skipping an optional type suffix never moves backwards or past the end |
| JavaDouble.ExponentEnd | src/ByteCode/VM.java:125-126 | an exponent is rejected or ends strictly after its start and within the text |
| Values.IsTruthy | src/ByteCode/VM.java:233-237 | a value is falsy exactly when it is null or false |
| Values.IsEqualIsValueEquality | src/ByteCode/VM.java:239-243 | equality is decided for every pair except two doubles written differently, and where decided it holds exactly for equal values, null equal only to null |
| Values.IsEqual | src/ByteCode/VM.java:239-243 | equality has an answer exactly when it is not a comparison of two doubles with different texts |
| Values.IsEqualSymmetric | src/Semantica/Interpreter.java:367-371 | the language's equality is reflexive and symmetric, including in which pairs it leaves undecided |
| Values.Stringify | src/ByteCode/VM.java:221-231 | null prints as `nulo`, booleans as `verdadeiro`/`falso`, ints in decimal, strings as themselves, and the optional booleans of `ISSOAI`/`MENTIRA` as `Optional[true]`/`Optional[false]`; only doubles and functions are not modelled |
| Values.InputValue | src/ByteCode/VM.java:118-133 | an input line becomes an int when it parses as one, else a double when it parses as one (value not modelled), else the line itself |
| VirtualMachine.Machine.Push | src/ByteCode/VM.java:131 | pushing grows the stack by exactly the value on top and changes nothing else |
| VirtualMachine.Fetch | src/ByteCode/VM.java:33-36 | the fetch reads the byte at `ip` when `ip` is inside the code, and advances `ip` by one either way |
| VirtualMachine.PopSpec | src/ByteCode/VM.java:52 | popping an empty stack fails; otherwise it yields the top, and pushing it back restores the machine |
| VirtualMachine.ReadShortSpec | src/ByteCode/VM.java:211-215 | a jump operand is read when both bytes exist, is a 16-bit value, and `ip` moves by two |
| VirtualMachine.BigEndian | src/ByteCode/VM.java:211-215 | the 16-bit operand is the high byte times 256 plus the low byte, and both bytes are recovered from it |
| VirtualMachine.IntArith | src/ByteCode/VM.java:195-208 | int arithmetic wraps to 32 bits, division truncates, comparisons give booleans, and only division by zero fails |
| VirtualMachine.BinaryValues | src/ByteCode/VM.java:163-180 | `+` on two strings concatenates, and an operation on a non-number that is not a string concatenation pushes null |
| VirtualMachine.NegateValue | src/ByteCode/VM.java:60-66 | negating an int pushes its wrapped negation, and a non-number is dropped without pushing anything |
| VirtualMachine.RunUnfold | src/ByteCode/VM.java:26-40 | one turn of the loop either continues from the next state or ends the run with that step's outcome |
| VirtualMachine.JumpOperand | src/ByteCode/VM.java:211-215 | a jump's operand is an unsigned 16-bit distance |
| VirtualMachine.EndOfCodeReturns | src/ByteCode/VM.java:33-46 | reaching the end of the code or `OP_RETURN` ends the run successfully |
| VirtualMachine.JumpStep | src/ByteCode/VM.java:143-147 | `OP_JUMP` moves `ip` forward by its operand from the end of the instruction and changes nothing else |
| VirtualMachine.JumpIfFalseStep | src/ByteCode/VM.java:136-142 | `OP_JUMP_IF_FALSE` keeps the condition on the stack and jumps exactly when it is falsy |
| VirtualMachine.LoopStep | src/ByteCode/VM.java:148-152 | `OP_LOOP` moves `ip` backward by its operand from the end of the instruction |
| VirtualMachine.ConstantStep | src/ByteCode/VM.java:47-51 | `OP_CONSTANT k` pushes the k-th pool entry and skips its operand |
| VirtualMachine.DefineGlobalStep | src/ByteCode/VM.java:86-91 | `OP_DEFINE_GLOBAL` pops the top and binds it to the name, redefinition allowed |
| VirtualMachine.GetGlobalStep | src/ByteCode/VM.java:92-101 | reading an unbound global stops the run with failure; a bound one is pushed with the globals unchanged |
| VirtualMachine.SetGlobalStep | src/ByteCode/VM.java:102-111 | assigning an unbound global stops the run with failure; otherwise the binding is replaced by the top, which stays on the stack |
| VirtualMachine.NegateDropsNonNumber | src/ByteCode/VM.java:60-66 | negating a value that is not a number pops it and pushes nothing |
| VirtualMachine.LocalsUnsupported | src/ByteCode/VM.java:154-156 | the local-variable opcodes fall to the default case and end the run with failure |
| VirtualMachine.EqualStep | src/ByteCode/VM.java:75-80 | `OP_EQUAL` replaces the top two values by whether they are equal; on two doubles written differently it pops them and stops as not modelled |
| VirtualMachine.AddStringStep | src/ByteCode/VM.java:168-173 | `+` with a string on either side replaces the operands by the concatenation of their printed forms |
| VirtualMachine.ArithmeticOnNonNumberPushesNull | src/ByteCode/VM.java:176-180 | arithmetic or comparison on a non-number replaces the operands by null instead of stopping |
| VirtualMachine.IntArithStep | src/ByteCode/VM.java:67-70 | `+`, `-`, `*` and `/` on two ints replace them by the 32-bit wrapped result, division truncating |
| VirtualMachine.DivideByZeroCrashes | src/ByteCode/VM.java:203-204 | int division by zero is an uncaught exception that crashes the run |
| VirtualMachine.CompareStep | src/ByteCode/VM.java:71-80 | `>`, `<` and `==` on two ints replace them by the boolean comparison |
| VirtualMachine.NotStep | src/ByteCode/VM.java:81-83 | `OP_NOT` replaces the top by the negation of its truthiness |
| VirtualMachine.NegatedComparisons | src/ByteCode/Compiler.java:141-150 | the two-opcode lowerings of `<=`, `>=` and `!=` leave exactly the intended boolean on ints |
| VirtualMachineImpl.VM.constructor | src/ByteCode/VM.java:20-24 | a new VM starts with an empty stack and no globals, with the given console lines to read |
| VirtualMachineImpl.VM.Push | src/ByteCode/VM.java:131 | the in-place push equals the pure push |
| VirtualMachineImpl.VM.Pop | src/ByteCode/VM.java:52 | the in-place pop gives the same value and state as the pure pop, failure included |
| VirtualMachineImpl.VM.ReadByte | src/ByteCode/VM.java:33-36 | the in-place fetch equals the pure fetch |
| VirtualMachineImpl.VM.ReadShort | src/ByteCode/VM.java:211-215 | the in-place operand read equals the pure 16-bit read |
| VirtualMachineImpl.VM.ReadName | src/ByteCode/VM.java:86-111 | reading a global's name from the pool gives a name exactly when it does not stop the run, as the pure read does |
| VirtualMachineImpl.VM.BinaryOp | src/ByteCode/VM.java:163-209 | the in-place `binaryOp` leaves the state and outcome of the pure binary step |
| VirtualMachineImpl.VM.StepOnce | src/ByteCode/VM.java:33-157 | one turn of the loop leaves the state and outcome of the pure step |
| VirtualMachineImpl.VM.ExecuteOp | src/ByteCode/VM.java:40-157 | dispatching a decoded opcode in place equals the pure dispatch |
| VirtualMachineImpl.VM.Negate | src/ByteCode/VM.java:60-66 | the in-place negation equals the pure one |
| VirtualMachineImpl.VM.GlobalOp | src/ByteCode/VM.java:86-111 | the in-place global opcodes equal the pure ones |
| VirtualMachineImpl.VM.JumpOp | src/ByteCode/VM.java:136-152 | the in-place jump opcodes equal the pure ones |
| VirtualMachineImpl.VM.Turn | src/ByteCode/VM.java:32-158 | a turn of the loop preserves where the whole run ends |
| VirtualMachineImpl.VM.Interpret | src/ByteCode/VM.java:26-159 | interpreting a chunk restarts `ip` at 0, keeps stack, globals and console from earlier calls, and ends in the state and outcome of the pure run |
| BytecodeCompiler.ExtendsTransitive | src/ByteCode/Compiler.java:20-36 | a chunk only ever grows at the end: growth composes across visitors |
| BytecodeCompiler.EmitJump | src/ByteCode/Compiler.java:239-244 | a jump is its opcode and two 0xFF placeholders, and the returned index is the first placeholder's |
| BytecodeCompiler.PatchJump | src/ByteCode/Compiler.java:245-252 | patching succeeds exactly when the distance to the end fits in 16 bits, writes it big-endian into the two placeholder bytes and changes no other byte |
| BytecodeCompiler.EmitLoop | src/ByteCode/Compiler.java:253-261 | a backward jump succeeds exactly when the distance fits in 16 bits, and its big-endian operand leads from just after the instruction back to the loop start |
| BytecodeCompiler.BinaryOpcodes | src/ByteCode/Compiler.java:136-155 | the ten supported operators compile to one opcode, `!=`, `<=` and `>=` to a comparison followed by `OP_NOT`; every other operator, `%` included, is a compile error |
| BytecodeCompiler.WriteOps | src/ByteCode/Compiler.java:141-150 | writing a run of opcodes appends exactly their ordinals, in order |
| BytecodeCompiler.WriteOpsOne | src/ByteCode/Compiler.java:141-150 | a one-opcode lowering is one opcode write |
| BytecodeCompiler.WriteOpsTwo | src/ByteCode/Compiler.java:141-150 | a two-opcode lowering is two opcode writes in order |
| BytecodeCompiler.EmitNamed | src/ByteCode/Compiler.java:175-189 | a global access appends its opcode and the index of a fresh pool entry holding the name |
| BytecodeCompiler.EmitStep | src/ByteCode/Compiler.java:193-236 | `++`/`--` appends get, constant 1, add or subtract, set, with two fresh pool entries (the name and 1) |
| BytecodeCompiler.EmitLiteral | src/ByteCode/Compiler.java:124-133 | null becomes `OP_NIL`, booleans `OP_TRUE`/`OP_FALSE`, anything else a fresh pool entry loaded by `OP_CONSTANT` |
| BytecodeCompiler.EmitExpr | src/ByteCode/Compiler.java:124-236 | compiling an expression only appends to the chunk |
| BytecodeCompiler.EmitStmt | src/ByteCode/Compiler.java:41-121 | compiling a statement only appends to the chunk |
| BytecodeCompiler.EmitIf | src/ByteCode/Compiler.java:63-75 | compiling an `if` only appends to the chunk |
| BytecodeCompiler.IfTail | src/ByteCode/Compiler.java:69-74 | the jump, patches and else-branch of an `if` keep everything before the condition's jump |
| BytecodeCompiler.EmitWhile | src/ByteCode/Compiler.java:78-87 | compiling a `while` only appends to the chunk |
| BytecodeCompiler.CloseLoop | src/ByteCode/Compiler.java:84-85 | closing a loop adds three bytes and changes nothing before the exit jump's placeholder |
| BytecodeCompiler.EmitElse | src/ByteCode/Compiler.java:72 | compiling the else-branch only appends |
| BytecodeCompiler.EmitStmts | src/ByteCode/Compiler.java:89-94 | compiling statements in order only appends, and the first error stops compilation |
| BytecodeCompiler.IfTailExtends | src/ByteCode/Compiler.java:69-74 | patching the `if` jumps keeps the chunk an extension of the one before the condition |
| BytecodeCompiler.WhileBodyExtends | src/ByteCode/Compiler.java:81-83 | the exit jump's placeholder lies between the loop start and the end of the body |
| BytecodeCompiler.WhileExtends | src/ByteCode/Compiler.java:84-85 | after the loop is closed the chunk still extends the one before the condition |
| BytecodeCompiler.Compile | src/ByteCode/Compiler.java:20-36 | compiling succeeds exactly when every statement compiles, and the chunk is then the statements' code, in order, followed by `OP_RETURN`, with one line per byte |
| BytecodeCompiler.EmitInput | src/ByteCode/Compiler.java:41-53 | `leia x` appends `OP_INPUT`, `OP_SET_GLOBAL k`, `OP_POP` where constant k is the name x |
| BytecodeCompiler.WriteOpsCode | src/ByteCode/Compiler.java:141-150 | writing opcodes one by one leaves the constants alone and appends their ordinals |
| BytecodeCompiler.BinaryShape | src/ByteCode/Compiler.java:136-155 | a binary expression compiles exactly when both operands and its operator do, to the left operand's code, then the right's, then the operator's opcodes |
| BytecodeCompiler.EmitOperator | src/ByteCode/Compiler.java:140-154 | the operator switch succeeds exactly for the operators that have opcodes, appending their ordinals and leaving the constants alone |
| BytecodeCompiler.UnaryShape | src/ByteCode/Compiler.java:157-167 | a unary expression compiles to its operand's code followed by `OP_NEGATE` or `OP_NOT` |
| BytecodeCompiler.NamedShapes | src/ByteCode/Compiler.java:169-181 | reading a variable appends `OP_GET_GLOBAL k` with constant k the name; grouping compiles as its inner expression; a call (line 56) emits nothing |
| BytecodeCompiler.AssignShape | src/ByteCode/Compiler.java:183-191 | an assignment compiles exactly when its value does, to the value's code then `OP_SET_GLOBAL k` with constant k the name |
| BytecodeCompiler.ExpressionShape | src/ByteCode/Compiler.java:110-115 | an expression statement compiles to its expression's code followed by `OP_POP` |
| BytecodeCompiler.PrintShape | src/ByteCode/Compiler.java:117-122 | `escreva` compiles to its expression's code followed by `OP_PRINT` |
| BytecodeCompiler.VarShape | src/ByteCode/Compiler.java:97-108 | `var x;` compiles to `OP_NIL`, `OP_DEFINE_GLOBAL k` with constant k the name x |
| BytecodeCompiler.VarInitShape | src/ByteCode/Compiler.java:97-108 | `var x = e;` compiles to e's code then `OP_DEFINE_GLOBAL k` with constant k the name x |
| BytecodeCompiler.UncompiledStatements | src/ByteCode/Compiler.java:57-60 | function, return, break and switch statements leave the chunk as it is |
| BytecodeCompiler.EmitStmtsAppend | src/ByteCode/Compiler.java:22-24 | compiling two runs of statements one after the other is compiling the first and then the second from where it stopped |
| BytecodeCompiler.StatementInProgram | src/ByteCode/Compiler.java:20-36 | in a compiled program each statement's code sits, unchanged, after the code of the statements before it |
| BytecodeCompilerImpl.Compiler.constructor | src/ByteCode/Compiler.java:16-18 | a new compiler has no current chunk |
| BytecodeCompilerImpl.Compiler.Compile | src/ByteCode/Compiler.java:20-36 | the compiler returns null exactly when the pure compilation fails, and otherwise a fresh chunk holding its result |
| BytecodeCompilerImpl.Compiler.EmitJump | src/ByteCode/Compiler.java:239-244 | the in-place jump emission gives the pure one's chunk and placeholder index |
| BytecodeCompilerImpl.Compiler.PatchJump | src/ByteCode/Compiler.java:245-252 | patching succeeds exactly when the pure patch does, and leaves the chunk untouched when it throws |
| BytecodeCompilerImpl.Compiler.EmitLoop | src/ByteCode/Compiler.java:253-261 | the in-place backward jump succeeds exactly when the pure one does, with the same chunk |
| BytecodeCompilerImpl.Compiler.EmitNamed | src/ByteCode/Compiler.java:175-189 | a global access written in place equals the pure emission |
| BytecodeCompilerImpl.Compiler.EmitStep | src/ByteCode/Compiler.java:193-236 | `++` and `--` written in place equal the pure emission |
| BytecodeCompilerImpl.Compiler.VisitLiteral | src/ByteCode/Compiler.java:124-133 | a literal written in place equals the pure emission |
| BytecodeCompilerImpl.Compiler.VisitExpr | src/ByteCode/Compiler.java:124-236 | an expression visit succeeds exactly when the pure compilation does, with the same chunk |
| BytecodeCompilerImpl.Compiler.VisitBinary | src/ByteCode/Compiler.java:136-155 | a binary expression visit succeeds exactly when the pure compilation does, with the same chunk |
| BytecodeCompilerImpl.Compiler.VisitUnary | src/ByteCode/Compiler.java:157-167 | a unary expression visit succeeds exactly when the pure compilation does, with the same chunk |
| BytecodeCompilerImpl.Compiler.EmitOne | src/ByteCode/Compiler.java:141-150 | an operator arm that writes one opcode appends just that opcode |
| BytecodeCompilerImpl.Compiler.EmitTwo | src/ByteCode/Compiler.java:141-150 | an operator arm that writes two opcodes appends just those two, in order |
| BytecodeCompilerImpl.Compiler.EmitOperator | src/ByteCode/Compiler.java:140-154 | the operator switch succeeds exactly for the supported operators and appends their lowering |
| BytecodeCompilerImpl.Compiler.VisitStmt | src/ByteCode/Compiler.java:41-121 | a statement visit succeeds exactly when the pure compilation does, with the same chunk |
| BytecodeCompilerImpl.Compiler.VisitVar | src/ByteCode/Compiler.java:97-107 | a declaration visit succeeds exactly when the pure compilation does, with the same chunk |
| BytecodeCompilerImpl.Compiler.VisitInput | src/ByteCode/Compiler.java:41-54 | an input statement written in place equals the pure emission, which never fails |
| BytecodeCompilerImpl.Compiler.VisitBlock | src/ByteCode/Compiler.java:89-94 | a block visit succeeds exactly when the pure compilation of its statements does, with the same chunk |
| BytecodeCompilerImpl.Compiler.VisitIf | src/ByteCode/Compiler.java:63-75 | an `if` visit succeeds exactly when the pure compilation does, with the same chunk |
| BytecodeCompilerImpl.Compiler.VisitIfTail | src/ByteCode/Compiler.java:69-74 | the second half of an `if` visit equals the pure one |
| BytecodeCompilerImpl.Compiler.VisitWhile | src/ByteCode/Compiler.java:78-87 | a `while` visit succeeds exactly when the pure compilation does, with the same chunk |
| CompiledSteps.StepUpdatesGlobal | src/ByteCode/Compiler.java:193-236 | the compiled `x++`/`x--` on a global int runs four instructions, stores the 32-bit wrapped successor or predecessor in the global and leaves it on the stack |
| CompiledSteps.StepRuns | src/ByteCode/VM.java:92-111 | get, constant 1, add or subtract, set, run on an int global, update it and leave the new value on top |
| CompiledSteps.StepLayout | src/ByteCode/Compiler.java:193-213 | the emitted `x++` is seven bytes whose operands name the variable twice and the constant 1 |
| CompiledSteps.Advance | src/ByteCode/VM.java:32-40 | a step that carries on spends one unit of the run on the next state |
| CompiledSteps.VarDefinesGlobal | src/ByteCode/Compiler.java:97-107 | the compiled `var x = literal;` runs two instructions that bind the global to the literal, defined before or not, and leave the stack as it was |
| CompiledSteps.VarLayout | src/ByteCode/Compiler.java:97-107 | the emitted declaration is four bytes: load of the pooled literal, then define with the name's pool entry |
| CompiledSteps.DefineRuns | src/ByteCode/VM.java:86-91 | pushing a constant and defining a global with it binds the name and restores the stack |
| JumpTargets.PatchedJumpLands | src/ByteCode/Compiler.java:245-252 | a patched forward jump lands exactly at the end of the code as it was when it was patched |
| JumpTargets.EmittedLoopLands | src/ByteCode/Compiler.java:253-261 | the emitted `OP_LOOP` leads back exactly to the loop start |
| JumpTargets.IfHead | src/ByteCode/Compiler.java:63-68 | a compiled `if` is its condition's code `c1`, the conditional jump, then the then-branch compiled onto that chunk, giving `c3`, and the rest is the `if`'s tail from `c1` and `c3` |
| JumpTargets.IfTailParts | src/ByteCode/Compiler.java:68-74 | the tail of an `if` is the unconditional jump after `c3`, the first patch (`c5`), the else-branch compiled onto `c5` (`c6`) and the second patch of `c6` |
| JumpTargets.IfLayout | src/ByteCode/Compiler.java:63-75 | in the finished `if`, the conditional jump lands just after the unconditional one and that one at the end |
| JumpTargets.IfJumps | src/ByteCode/Compiler.java:63-75 | a compiled `if` has its conditional jump right after the condition, landing just past the unconditional jump, and that unconditional jump exactly at the end of the then-branch's code, landing at the end of the statement |
| JumpTargets.WhileParts | src/ByteCode/Compiler.java:78-87 | a compiled `while` is the condition (`c1`), the exit jump, the loop body compiled onto that chunk (`c3`), the backward jump to the loop start and the exit patch, in that order |
| JumpTargets.WhileLayout | src/ByteCode/Compiler.java:78-87 | in the finished `while`, the exit jump lands at the end and the backward jump on the loop start |
| JumpTargets.WhileJumps | src/ByteCode/Compiler.java:78-87 | a compiled `while` has its exit jump right after the condition, landing after the loop, and its backward jump exactly at the end of the body's code, leading to the condition's first instruction |
| JumpTargets.StmtDispatch | src/ByteCode/Compiler.java:63-87 | the statement visitor compiles `if` and `while` with their own visitors |
| JumpTargets.IfSteps | src/ByteCode/VM.java:136-147 | in any code that extends an `if`'s code, at its jumps the VM goes to the else-branch on a falsy condition, into the then-branch on a truthy one, and to the end after the then-branch |
| JumpTargets.WhileSteps | src/ByteCode/VM.java:136-152 | in any code that extends a `while`'s code, at its jumps the VM leaves on a falsy condition, enters the body on a truthy one, and returns to the loop start after the body |
| JumpTargets.IfControlFlow | src/ByteCode/Compiler.java:63-75 | in any code that continues after a compiled `if`, the VM skips to just past the then-branch's jump on a falsy condition, falls into the then-branch on a truthy one, and at the jump that ends the then-branch's code goes to the end of the statement, past the else-branch |
| JumpTargets.WhileControlFlow | src/ByteCode/Compiler.java:78-87 | in any code that continues after a compiled `while`, the VM exits on a falsy condition, runs the body on a truthy one, and at the backward jump that ends the body's code goes back to re-evaluate the condition |
| Scanning.WordKind | src/Lexica/Scanner.java:108-119 | a word scans as an identifier exactly when it is not a keyword, and never as end of file |
| Scanning.IdentEnd | src/Lexica/Scanner.java:109 | an identifier takes every following letter, digit and `_` and stops at the first other character |
| Scanning.DigitsEnd | src/Lexica/Scanner.java:126 | a run of digits stops at the first non-digit |
| Scanning.NumberEnd | src/Lexica/Scanner.java:125-130 | the end of a number lies within the source, after its first digit |
| Scanning.SkipTo | src/Lexica/Scanner.java:137-141 | the scan stops at the first given character, or at the end of the source: the closing quote of a string, and the line feed ending a `//` comment (lines 56-57) |
| Scanning.CommentEnd | src/Lexica/Scanner.java:58-60 | a block comment ends at the first star-slash, or at the end of the source |
| Scanning.AddToken | src/Lexica/Scanner.java:180-188 | adding a token moves the cursor to its end and keeps the line |
| Scanning.SingleKind | src/Lexica/Scanner.java:52-91 | exactly the characters `: ( ) { } [ ] , ; * %` are tokens on their own |
| Scanning.EitherKinds | src/Lexica/Scanner.java:71-89 | exactly `= ! + - > <` may pair with a following character, and the pair's kind is the two-character operator's |
| Scanning.ScanSlash | src/Lexica/Scanner.java:55-62 | a slash, a line comment or a block comment makes progress and keeps the line |
| Scanning.ScanDoubled | src/Lexica/Scanner.java:92-99 | `&&`, `||` or a lone `&`/`|` makes progress and keeps the line |
| Scanning.ScanIdentifier | src/Lexica/Scanner.java:108-119 | an identifier makes progress and keeps the line |
| Scanning.ScanNumber | src/Lexica/Scanner.java:125-135 | a number that parses makes progress and keeps the line |
| Scanning.ScanString | src/Lexica/Scanner.java:137-149 | a string makes progress and never moves the line backwards |
| Scanning.ScanToken | src/Lexica/Scanner.java:49-106 | every successful step of the lexer consumes at least one character and never moves the line backwards |
| Scanning.ScanOther | src/Lexica/Scanner.java:90-104 | the string, `&&`/`||`, word and number arms of the switch, and the skipped stray character, also consume at least one character without moving the line backwards |
| Scanning.ScanFrom | src/Lexica/Scanner.java:40-47 | a successful scan consumes the whole source |
| Scanning.AddTokenGrows | src/Lexica/Scanner.java:180-188 | adding a token appends exactly one token whose lexeme is the source text it covers |
| Scanning.SlashDispatch | src/Lexica/Scanner.java:55-62 | a slash is handled by the slash branch of the switch |
| Scanning.StringDispatch | src/Lexica/Scanner.java:90 | a double quote starts a string |
| Scanning.IdentifierDispatch | src/Lexica/Scanner.java:101-104 | a letter starts an identifier |
| Scanning.NumberDispatch | src/Lexica/Scanner.java:101-104 | a digit starts a number |
| Scanning.SingleDispatch | src/Lexica/Scanner.java:63-70 | a single-character token adds exactly one token of its kind |
| Scanning.EitherDispatch | src/Lexica/Scanner.java:71-89 | a pairing character adds the pair token when the expected successor follows, the single token otherwise |
| Scanning.DoubledDispatch | src/Lexica/Scanner.java:92-99 | `&` and `|` are handled by the doubled-operator branches |
| Scanning.SkipDispatch | src/Lexica/Scanner.java:53-54 | blanks, line feeds and unknown characters are skipped, a line feed counting a line |
| Scanning.SlashGrows | src/Lexica/Scanner.java:55-62 | the slash branch adds at most one token taken from the source |
| Scanning.StringGrows | src/Lexica/Scanner.java:137-149 | the string branch adds at most one token taken from the source |
| Scanning.IdentifierGrows | src/Lexica/Scanner.java:108-119 | the identifier branch adds exactly one token taken from the source |
| Scanning.NumberGrows | src/Lexica/Scanner.java:125-135 | the number branch adds exactly one token taken from the source |
| Scanning.OperatorGrows | src/Lexica/Scanner.java:63-99 | the operator branches add at most one token taken from the source |
| Scanning.StepGrows | src/Lexica/Scanner.java:49-106 | each step of the lexer adds at most one token, taken from the source at the cursor |
| Scanning.SoundStep | src/Lexica/Scanner.java:49-106 | a step keeps the token list in source order and taken from the source |
| Scanning.SoundGrows | src/Lexica/Scanner.java:180-188 | appending a source token after the last one keeps the list ordered |
| Scanning.SoundFrom | src/Lexica/Scanner.java:40-47 | the scanning loop keeps the token list in source order and taken from the source |
| Scanning.ScanTokensShape | src/Lexica/Scanner.java:40-47 | a successful scan ends in exactly one end-of-file token, at the end of the source, and every other token is source text, in order, without overlap, with non-decreasing lines |
| Scanning.EofShape | src/Lexica/Scanner.java:45-46 | appending the end-of-file token to an ordered list gives the shape of a finished scan |
| Scanning.FailsOnlyOnOverflow | src/Lexica/Scanner.java:130-134 | the only way the lexer fails is an integer literal outside 32 bits |
| Scanning.GreedyPairs | src/Lexica/Scanner.java:71-89 | a two-character operator is always one token, never two |
| Scanning.LoneAmpersandOrBar | src/Lexica/Scanner.java:92-99 | a lone `&` or `|` adds no token |
| Scanning.Silent | src/Lexica/Scanner.java:53-62 | blanks, comments and unknown characters add no token, and only a line feed outside a comment counts a line |
| Scanning.BlockCommentKeepsLine | src/Lexica/Scanner.java:58-60 | a block comment is skipped whole without counting the lines inside it |
| Scanning.IdentifierToken | src/Lexica/Scanner.java:108-119 | an identifier is the longest run of word characters and is a keyword exactly when the whole word is one |
| Scanning.StringToken | src/Lexica/Scanner.java:137-149 | a string's lexeme keeps the quotes, its literal drops them, it carries the closing quote's line, and an unterminated one adds nothing |
| Scanning.StringScanned | src/Lexica/Scanner.java:137-149 | the string scanner builds exactly that token |
| Scanning.NumberToken | src/Lexica/Scanner.java:125-135 | a number with a fraction is a double literal, one without an int literal |
| ScannerImpl.Scanner.constructor | src/Lexica/Scanner.java:36-38 | a new scanner holds the source, no tokens, the cursor at 0 and line 1 |
| ScannerImpl.Scanner.Advance | src/Lexica/Scanner.java:172-174 | advancing returns the character under the cursor and moves past it, nothing else changing |
| ScannerImpl.Scanner.Match | src/Lexica/Scanner.java:151-156 | the expected character is consumed exactly when it is next, and nothing else changes |
| ScannerImpl.Scanner.AddToken | src/Lexica/Scanner.java:180-188 | adding a token in place equals the pure token addition for the text between start and cursor |
| ScannerImpl.Scanner.SkipLine | src/Lexica/Scanner.java:57 | the line-comment loop stops at the line feed, adding no token and counting no line |
| ScannerImpl.Scanner.SkipComment | src/Lexica/Scanner.java:59 | the block-comment loop stops at the star-slash, adding no token and counting no line |
| ScannerImpl.Scanner.Slash | src/Lexica/Scanner.java:55-62 | the slash case in place equals the pure slash scan |
| ScannerImpl.Scanner.Identifier | src/Lexica/Scanner.java:108-119 | `identifier()` in place equals the pure identifier scan |
| ScannerImpl.Scanner.IdentChars | src/Lexica/Scanner.java:109-111 | the identifier loop stops at the first character that is not a letter, digit or `_` |
| ScannerImpl.Scanner.Digits | src/Lexica/Scanner.java:126 | the digit loop stops at the first non-digit |
| ScannerImpl.Scanner.Number | src/Lexica/Scanner.java:125-135 | `number()` in place fails exactly when the pure number scan does, with its message, and otherwise equals it |
| ScannerImpl.Scanner.StringBody | src/Lexica/Scanner.java:138-141 | the string loop stops at the closing quote and counts every line feed it passes |
| ScannerImpl.Scanner.StringLit | src/Lexica/Scanner.java:137-149 | `string()` in place equals the pure string scan |
| ScannerImpl.Scanner.ScanToken | src/Lexica/Scanner.java:49-106 | one step in place fails exactly when the pure step does, and otherwise equals it |
| ScannerImpl.Scanner.ScanOther | src/Lexica/Scanner.java:90-104 | those arms in place fail exactly when the pure ones do, and otherwise leave the same state |
| ScannerImpl.Scanner.ScanTokens | src/Lexica/Scanner.java:40-47 | the scanning loop returns what the pure scan returns, and the scanner's list is the returned tokens |
| Parsing.Advance | src/Sintatica/Parser.java:307 | the cursor moves by one token, except that it never moves past end of file |
| Parsing.Consume | src/Sintatica/Parser.java:308-311 | the expected token is consumed and returned exactly when it is the current one; otherwise the parser throws without moving |
| Parsing.GetRule | src/Sintatica/Parser.java:36-78 | end of file has no prefix rule, a call binds at the call level and an assignment at the assignment level |
| Parsing.AtomTight | src/Sintatica/Parser.java:221-237 | what a prefix rule builds may stand at any level |
| Parsing.Expression | src/Sintatica/Parser.java:218 | an expression consumes at least one token and respects operator levels from assignment up |
| Parsing.ParsePrecedence | src/Sintatica/Parser.java:221-237 | parsing at a level consumes at least one token and yields a tree whose top operators bind at least that tightly |
| Parsing.InfixLoop | src/Sintatica/Parser.java:230-235 | the loop of infix operators keeps the tree within the level being parsed |
| Parsing.InfixStep | src/Sintatica/Parser.java:230-235 | one infix turn keeps the tree within the level being parsed |
| Parsing.InfixLoopApplies | src/Sintatica/Parser.java:230-235 | an infix turn either throws or continues the loop from the new tree and cursor |
| Parsing.Prefix | src/Sintatica/Parser.java:246-302 | the prefix rules build an atom, a grouping, a unary node, a literal or a variable, never moving backwards |
| Parsing.Infix | src/Sintatica/Parser.java:250-302 | the infix rules build a binary node, an assignment or a call from the left operand |
| Parsing.Arguments | src/Sintatica/Parser.java:293-302 | the argument list keeps earlier arguments, adds at least one, and each is a full expression |
| Parsing.Synchronize | src/Sintatica/Parser.java:97-108 | recovery moves past the failed token unless at end of file |
| Parsing.SyncLoop | src/Sintatica/Parser.java:99-107 | the recovery loop never moves backwards |
| Parsing.Terminated | src/Sintatica/Parser.java:204-215 | a statement is accepted only when a `;` follows, and the cursor moves past it |
| Parsing.Declaration | src/Sintatica/Parser.java:111-120 | a declaration consumes at least one token and never leaves a dangling `else` to be taken by an enclosing `if` without one |
| Parsing.IfStatement | src/Sintatica/Parser.java:122-130 | an `if` statement consumes tokens, and any `else` that follows it was taken |
| Parsing.ElseBranch | src/Sintatica/Parser.java:127-129 | the `if` keeps its condition and then-branch, and has no else-branch only when `SENAO` does not follow |
| Parsing.ElseBranchCases | src/Sintatica/Parser.java:127-129 | without `SENAO` the `if` ends there; with it, the else-branch is the next statement or block |
| Parsing.StatementOrBlock | src/Sintatica/Parser.java:133-136 | a branch is a braced block or one declaration, and consumes tokens |
| Parsing.InputStatement | src/Sintatica/Parser.java:139-143 | an input statement is an identifier followed by `;`, naming that identifier |
| Parsing.Block | src/Sintatica/Parser.java:146-153 | a block ends just after its closing brace |
| Parsing.BlockBody | src/Sintatica/Parser.java:148-151 | the block loop stops only at a closing brace or end of file |
| Parsing.WhileStatement | src/Sintatica/Parser.java:156-163 | a `while` body is always a braced block |
| Parsing.SwitchStatement | src/Sintatica/Parser.java:166-187 | a switch statement consumes tokens and builds a switch node |
| Parsing.SwitchArms | src/Sintatica/Parser.java:171-184 | arms are appended in order, earlier ones kept, and the loop stops only at a closing brace or end of file |
| Parsing.CaseBody | src/Sintatica/Parser.java:172-176 | a `CASO` arm carries its value |
| Parsing.DefaultBody | src/Sintatica/Parser.java:177-180 | a `PADRAO` arm carries no value |
| Parsing.BreakStatement | src/Sintatica/Parser.java:189-192 | `break` is accepted only with its `;` |
| Parsing.VarDeclaration | src/Sintatica/Parser.java:195-201 | a declaration names the identifier after the keyword and has an initializer exactly when `=` follows the name |
| Parsing.PrintStatement | src/Sintatica/Parser.java:204-208 | a print statement consumes tokens and builds a print node |
| Parsing.ExpressionStatement | src/Sintatica/Parser.java:211-215 | an expression statement holds a full expression |
| Parsing.ParseKeepsOrder | src/Sintatica/Parser.java:83-94 | parsed statements are kept in order, failed ones dropped, none reordered |
| Parsing.ParseTurnAdvances | src/Sintatica/Parser.java:83-94 | every turn of the parse loop moves the cursor, so the loop ends |
| Parsing.SyncLoopStops | src/Sintatica/Parser.java:99-107 | the recovery loop stops at the first end of file, position after `;` or statement keyword |
| Parsing.SynchronizeStops | src/Sintatica/Parser.java:97-108 | recovery stops at the first end of file, position after `;` or statement keyword after the failed token |
| Parsing.LeftAssociative | src/Sintatica/Parser.java:250-255 | binary operators associate to the left: a right operand has no top operator of the same or a looser level |
| Parsing.TightHasNoStepNode | src/Sintatica/Parser.java:36-78 | the parser never builds increment or decrement nodes, since no rule builds them |
| Parsing.AssignTargetMustBeVariable | src/Sintatica/Parser.java:257-263 | assignment throws unless its left side is a variable, and then assigns to that name |
| Parsing.LiteralRules | src/Sintatica/Parser.java:36-78 | `ISSOAI`, `MENTIRA` and `NULO` use the literal rule, numbers and strings their own |
| Parsing.BooleanLiterals | src/Sintatica/Parser.java:285-291 | `ISSOAI` and `MENTIRA` become optional values, both truthy, and `NULO` becomes null |
| Parsing.ScannedLiterals | src/Sintatica/Parser.java:246-248 | number and string literals keep the scanner's value |
| Parsing.DanglingElse | src/Sintatica/Parser.java:122-130 | an `else` belongs to the innermost `if`: an unbraced inner `if` without one leaves none to the outer |
| Parsing.SwitchRejectsOtherTokens | src/Sintatica/Parser.java:181-183 | inside a switch, a token other than `CASO`, `PADRAO` or `}` throws where it stands |
| Parsing.LaterDefaultReplaces | src/Sintatica/Parser.java:177-180 | a later `PADRAO` arm replaces any earlier default |
| ParserImpl.Parser.constructor | src/Sintatica/Parser.java:80 | a new parser holds the tokens with the cursor at the first one |
| ParserImpl.Parser.Advance | src/Sintatica/Parser.java:307 | the in-place advance equals the pure cursor step |
| ParserImpl.Parser.Match | src/Sintatica/Parser.java:318-326 | the current token is stepped over exactly when it has the kind asked for |
| ParserImpl.Parser.Consume | src/Sintatica/Parser.java:308-311 | the in-place consume returns the token or throws exactly as the pure one does, leaving the same cursor |
| ParserImpl.Parser.Expression | src/Sintatica/Parser.java:218 | the in-place expression parse agrees with the pure one on result and cursor |
| ParserImpl.Parser.ParsePrecedence | src/Sintatica/Parser.java:221-237 | the in-place precedence climb agrees with the pure one on result and cursor |
| ParserImpl.Parser.InfixLoop | src/Sintatica/Parser.java:230-235 | the in-place infix loop agrees with the pure one on result and cursor |
| ParserImpl.Parser.InfixTurn | src/Sintatica/Parser.java:230-235 | a turn of the infix loop either ends it as the pure loop does or moves the cursor and keeps the same eventual result |
| ParserImpl.Parser.ApplyInfix | src/Sintatica/Parser.java:231-234 | applying an infix rule keeps the eventual result of the loop, and a missing rule ends it with the left operand |
| ParserImpl.Parser.Prefix | src/Sintatica/Parser.java:246-291 | the in-place prefix rules agree with the pure ones on result and cursor |
| ParserImpl.Parser.Infix | src/Sintatica/Parser.java:250-302 | the in-place infix rules agree with the pure ones on result and cursor |
| ParserImpl.Parser.Arguments | src/Sintatica/Parser.java:293-302 | the in-place argument loop agrees with the pure one on result and cursor |
| ParserImpl.Parser.Synchronize | src/Sintatica/Parser.java:97-108 | in-place recovery leaves the cursor where the pure recovery does |
| ParserImpl.Parser.Declaration | src/Sintatica/Parser.java:111-120 | the in-place declaration parse agrees with the pure one on result and cursor |
| ParserImpl.Parser.IfStatement | src/Sintatica/Parser.java:122-130 | the in-place `if` parse agrees with the pure one on result and cursor |
| ParserImpl.Parser.ElseBranch | src/Sintatica/Parser.java:127-129 | the in-place else-branch parse agrees with the pure one on result and cursor |
| ParserImpl.Parser.StatementOrBlock | src/Sintatica/Parser.java:133-136 | the in-place branch parse agrees with the pure one on result and cursor |
| ParserImpl.Parser.InputStatement | src/Sintatica/Parser.java:139-143 | the in-place input statement parse agrees with the pure one on result and cursor |
| ParserImpl.Parser.Block | src/Sintatica/Parser.java:146-153 | the in-place block parse agrees with the pure one on result and cursor |
| ParserImpl.Parser.WhileStatement | src/Sintatica/Parser.java:156-163 | the in-place `while` parse agrees with the pure one on result and cursor |
| ParserImpl.Parser.SwitchStatement | src/Sintatica/Parser.java:166-187 | the in-place switch parse agrees with the pure one on result and cursor |
| ParserImpl.Parser.Arms | src/Sintatica/Parser.java:171-184 | the in-place arm loop agrees with the pure one on result and cursor |
| ParserImpl.Parser.Arm | src/Sintatica/Parser.java:172-183 | a turn of the arm loop either throws as the pure loop does or moves the cursor and keeps its eventual result |
| ParserImpl.Parser.CaseBody | src/Sintatica/Parser.java:172-176 | the in-place `CASO` arm parse agrees with the pure one on result and cursor |
| ParserImpl.Parser.DefaultBody | src/Sintatica/Parser.java:177-180 | the in-place `PADRAO` arm parse agrees with the pure one on result and cursor |
| ParserImpl.Parser.BreakStatement | src/Sintatica/Parser.java:189-192 | the in-place `break` parse agrees with the pure one on result and cursor |
| ParserImpl.Parser.VarDeclaration | src/Sintatica/Parser.java:195-201 | the in-place declaration parse agrees with the pure one on result and cursor |
| ParserImpl.Parser.PrintStatement | src/Sintatica/Parser.java:204-208 | the in-place print statement parse agrees with the pure one on result and cursor |
| ParserImpl.Parser.ExpressionStatement | src/Sintatica/Parser.java:211-215 | the in-place expression statement parse agrees with the pure one on result and cursor |
| ParserImpl.Parser.Parse | src/Sintatica/Parser.java:83-94 | the parse loop returns the statements the pure loop collects, dropping the ones that throw |
| Interpreting.Initial | src/Semantica/Interpreter.java:17-21 | a fresh interpreter has only the global environment, with no parent, and is current there |
| Interpreting.Owner | src/Semantica/Interpreter.java:450-460 | the environment an assignment writes is the nearest one, from the current outward, that binds the name |
| Interpreting.DefineAt | src/Semantica/Interpreter.java:436-438 | defining changes no environment count |
| Interpreting.AssignAt | src/Semantica/Interpreter.java:450-460 | assigning never adds or removes a name in any environment |
| Interpreting.Define | src/Semantica/Interpreter.java:436-438 | defining in the current environment adds a name there only, and keeps the current environment |
| Interpreting.BinaryOp | src/Semantica/Interpreter.java:38-107 | int arithmetic on 32-bit operands stays within 32 bits |
| Interpreting.Compare | src/Semantica/Interpreter.java:81-89 | a comparison that succeeds yields a boolean |
| Interpreting.UnaryOp | src/Semantica/Interpreter.java:166-178 | negating a 32-bit int stays within 32 bits |
| Interpreting.Lift | src/Semantica/Interpreter.java:38-107 | an operator's result or error is reported in the state it was computed in |
| Interpreting.CatchBreak | src/Semantica/Interpreter.java:242-251 | catching `break` turns only a `break` into normal completion; every other abrupt ending passes unchanged |
| Interpreting.Evaluate | src/Semantica/Interpreter.java:327-329 | evaluating keeps the current environment, adds no name to any existing one, and never lets a `return` escape |
| Interpreting.AcceptExpr | src/Semantica/Interpreter.java:327-329 | every expression visitor keeps the current environment, adds no name to any existing one, and never lets a `return` escape |
| Interpreting.VisitVariable | src/Semantica/Interpreter.java:154-157 | a variable read succeeds exactly when some environment from the current outward binds the name, and changes nothing |
| Interpreting.VisitAssign | src/Semantica/Interpreter.java:120-124 | an assignment keeps the current environment and adds no name to any existing one |
| Interpreting.VisitUnary | src/Semantica/Interpreter.java:166-178 | a unary expression keeps the current environment and adds no name to any existing one |
| Interpreting.VisitBinary | src/Semantica/Interpreter.java:38-107 | a binary expression keeps the current environment and adds no name to any existing one |
| Interpreting.VisitCall | src/Semantica/Interpreter.java:128-145 | a call keeps the current environment, adds no name to any existing one, and catches the callee's `return` |
| Interpreting.EvaluateArguments | src/Semantica/Interpreter.java:133-135 | the arguments are evaluated left to right, one value each |
| Interpreting.CallFunction | src/Semantica/Interpreter.java:395-406 | a function body runs in a new environment and the caller's environments keep their names |
| Interpreting.Execute | src/Semantica/Interpreter.java:332-334 | executing a statement keeps the current environment and adds names only to it |
| Interpreting.Accept | src/Semantica/Interpreter.java:332-334 | every statement visitor keeps the current environment and adds names only to it |
| Interpreting.VisitPrint | src/Semantica/Interpreter.java:182-186 | printing keeps the current environment and adds no name |
| Interpreting.VisitVar | src/Semantica/Interpreter.java:190-197 | a declaration adds its name to the current environment only |
| Interpreting.VisitFunction | src/Semantica/Interpreter.java:201-205 | a function declaration creates one closure over the current environment and binds the name to it there |
| Interpreting.VisitReturn | src/Semantica/Interpreter.java:209-213 | `return` always ends abruptly |
| Interpreting.VisitIf | src/Semantica/Interpreter.java:217-224 | an `if` keeps the current environment and adds names only to it |
| Interpreting.VisitExpression | src/Semantica/Interpreter.java:228-231 | an expression statement keeps the current environment and adds names only to it |
| Interpreting.VisitBlock | src/Semantica/Interpreter.java:235-238 | a block adds no name to any environment that existed before it |
| Interpreting.ExecuteBlock | src/Semantica/Interpreter.java:339-350 | the block's statements may add names only to the block's own environment, and the previous environment is restored however they end |
| Interpreting.ExecuteStatements | src/Semantica/Interpreter.java:339-350 | a run of statements keeps the current environment and adds names only to it |
| Interpreting.WhileLoop | src/Semantica/Interpreter.java:242-251 | a `while` keeps the current environment and adds names only to it |
| Interpreting.WhileTurn | src/Semantica/Interpreter.java:242-251 | a turn of the loop keeps the current environment and adds names only to it |
| Interpreting.VisitSwitch | src/Semantica/Interpreter.java:255-280 | a switch keeps the current environment and adds names only to it |
| Interpreting.SwitchCases | src/Semantica/Interpreter.java:258-278 | the case loop keeps the current environment and adds names only to it |
| Interpreting.VisitInput | src/Semantica/Interpreter.java:289-324 | an input statement keeps the current environment and adds names only to it |
| Interpreting.RunLine | src/Semantica/Interpreter.java:294-309 | running a line read as a program keeps the current environment and adds names only to it |
| Interpreting.RunStatements | src/Semantica/Interpreter.java:297-308 | the loop over the line's statements swallows every error, `break` and `return`, so only an unmodelled case or exhausted fuel escapes |
| Interpreting.Interpret | src/Semantica/Interpreter.java:26-34 | a run ends in the global environment, which still exists |
| Interpreting.LookupFindsOwner | src/Semantica/Interpreter.java:441-460 | `get` fails exactly when `assign` would, and otherwise reads the binding `assign` would write |
| Interpreting.LookupSearchesOutward | src/Semantica/Interpreter.java:441-447 | `get` of a name the environment does not bind searches its parent |
| Interpreting.DefineShadows | src/Semantica/Interpreter.java:436-438 | after `define`, `get` there sees the new value, and every other environment and name is unchanged |
| Interpreting.AssignNeverDefines | src/Semantica/Interpreter.java:450-460 | `assign` fails exactly when `get` would, and never adds a name or changes a parent |
| Interpreting.LookupAfterAssign | src/Semantica/Interpreter.java:441-460 | after `assign`, `get` from the same environment returns the value assigned |
| Interpreting.AssignKeepsOtherNames | src/Semantica/Interpreter.java:450-460 | `assign` changes no other name as seen from any environment |
| Interpreting.BindEachParameter | src/Semantica/Interpreter.java:398-401 | with distinct parameter names, each parameter is bound to its own argument |
| Interpreting.BindKeeps | src/Semantica/Interpreter.java:398-401 | binding the parameters leaves every other name alone |
| Interpreting.AddSubtractWrap | src/Semantica/Interpreter.java:42-61 | `+` and `-` on two ints give the 32-bit two's-complement result, the exact one when it fits |
| Interpreting.MultiplyWraps | src/Semantica/Interpreter.java:63-70 | `*` on two ints gives the 32-bit two's-complement product, the exact one when it fits |
| Interpreting.PlusConcatenatesStrings | src/Semantica/Interpreter.java:49-51 | `+` on two strings concatenates them |
| Interpreting.PlusRejectsMixed | src/Semantica/Interpreter.java:42-52 | `+` of a string and a number, either way round, is an error |
| Interpreting.ArithmeticNeedsNumbers | src/Semantica/Interpreter.java:54-102 | `-`, `*`, `/`, `%` and the comparisons on anything but two numbers are errors |
| Interpreting.DivisionByZeroFails | src/Semantica/Interpreter.java:72-79 | dividing by zero is an error whatever the dividend, and so is `%` of two ints by zero |
| Interpreting.RemainderOfInts | src/Semantica/Interpreter.java:95-98 | `%` on two ints completes truncating division, is smaller than the divisor and takes the dividend's sign |
| Interpreting.ComparesInts | src/Semantica/Interpreter.java:81-89 | the four comparisons on two ints are the exact integer comparisons |
| Interpreting.EqualityIsValueEquality | src/Semantica/Interpreter.java:90-93 | `==` and `!=` are value equality and its negation whenever equality is decided, and stop as not modelled on two doubles written differently |
| Interpreting.UnaryOperators | src/Semantica/Interpreter.java:166-178 | `!` negates truthiness, `-` negates an int with wrap-around, and `-` of a non-number is an error |
| Interpreting.CallRejectsNonFunction | src/Semantica/Interpreter.java:128-145 | calling a value that is not a function is an error before any argument is evaluated |
| Interpreting.CallChecksArity | src/Semantica/Interpreter.java:136-141 | a call with the wrong number of arguments is an error and the body never runs |
| Interpreting.CallReturns | src/Semantica/Interpreter.java:395-406 | a call runs the body in one new environment binding the parameters, and yields the returned value, or null when the body completes |
| Interpreting.WhileStopsWhenFalsy | src/Semantica/Interpreter.java:242-251 | a loop whose condition is falsy runs nothing more |
| Interpreting.WhileRepeats | src/Semantica/Interpreter.java:242-251 | a loop whose condition is truthy runs the body once and tests the condition again |
| Interpreting.BreakEndsInnermostLoop | src/Semantica/Interpreter.java:245-249 | a `break` ends only the innermost loop, which completes normally |
| Interpreting.SwitchRunsFirstMatch | src/Semantica/Interpreter.java:258-278 | with literal case values the switch runs only the first case equal to the subject, with no fall-through and no default, and `break` ends only the switch |
| Interpreting.SwitchDefaultWithoutMatch | src/Semantica/Interpreter.java:258-278 | with literal case values the default runs exactly when no case matches |
| Interpreting.SwitchStopsWhenUndecided | src/Semantica/Interpreter.java:258-278 | when every earlier literal case differs from the subject and the next one is a double written differently from a double subject, the switch stops as not modelled without running any case |
| Interpreting.BlockDeclarationsStayInside | src/Semantica/Interpreter.java:235-238 | a block leaks no binding into any environment that existed before it |
| Interpreting.StatementsStopAtFirstAbrupt | src/Semantica/Interpreter.java:339-350 | statements run in order and the first abrupt one ends the sequence in the state it left |
| Interpreting.InputNeedsALine | src/Semantica/Interpreter.java:289-293 | an input statement with no line left fails after printing the prompt |
| Interpreting.InputFallsBackToInt | src/Semantica/Interpreter.java:310-322 | when the line read did not run as an assignment, an int line is stored as that int |
| InterpreterImpl.Interpreter.constructor | src/Semantica/Interpreter.java:17-21 | a new interpreter is the pure initial state: the global environment only, nothing printed |
| InterpreterImpl.Interpreter.Define | src/Semantica/Interpreter.java:436-438 | defining in place leaves the pure `define` state |
| InterpreterImpl.Interpreter.Get | src/Semantica/Interpreter.java:441-447 | `get` in place returns the nearest binding, or raises when no environment binds the name |
| InterpreterImpl.Interpreter.Assign | src/Semantica/Interpreter.java:450-460 | `assign` in place succeeds exactly when the pure one does, writes the same environments, and otherwise changes nothing |
| InterpreterImpl.Interpreter.Evaluate | src/Semantica/Interpreter.java:327-329 | evaluating in place ends in the pure evaluation's value or signal and state |
| InterpreterImpl.Interpreter.VisitAssign | src/Semantica/Interpreter.java:120-124 | an assignment in place matches the pure one |
| InterpreterImpl.Interpreter.VisitUnary | src/Semantica/Interpreter.java:166-178 | a unary expression in place matches the pure one |
| InterpreterImpl.Interpreter.VisitBinary | src/Semantica/Interpreter.java:38-107 | a binary expression in place matches the pure one |
| InterpreterImpl.Interpreter.VisitCall | src/Semantica/Interpreter.java:128-145 | a call in place matches the pure one |
| InterpreterImpl.Interpreter.EvaluateArguments | src/Semantica/Interpreter.java:134-137 | the argument loop in place matches the pure one |
| InterpreterImpl.Interpreter.CallFunction | src/Semantica/Interpreter.java:395-406 | a function call in place matches the pure one |
| InterpreterImpl.Interpreter.Execute | src/Semantica/Interpreter.java:332-334 | executing a statement in place ends in the pure execution's outcome and state |
| InterpreterImpl.Interpreter.VisitPrint | src/Semantica/Interpreter.java:182-186 | printing in place matches the pure print |
| InterpreterImpl.Interpreter.VisitVar | src/Semantica/Interpreter.java:190-197 | a declaration in place matches the pure one |
| InterpreterImpl.Interpreter.VisitFunction | src/Semantica/Interpreter.java:201-205 | a function declaration in place leaves the pure state |
| InterpreterImpl.Interpreter.VisitReturn | src/Semantica/Interpreter.java:209-213 | `return` in place matches the pure one |
| InterpreterImpl.Interpreter.VisitIf | src/Semantica/Interpreter.java:217-224 | an `if` in place matches the pure one |
| InterpreterImpl.Interpreter.VisitExpression | src/Semantica/Interpreter.java:228-231 | an expression statement in place matches the pure one |
| InterpreterImpl.Interpreter.VisitBlock | src/Semantica/Interpreter.java:235-238 | a block in place matches the pure one |
| InterpreterImpl.Interpreter.ExecuteBlock | src/Semantica/Interpreter.java:339-350 | `executeBlock` in place matches the pure one, restoring the environment |
| InterpreterImpl.Interpreter.ExecuteStatements | src/Semantica/Interpreter.java:343-345 | the statement loop in place matches the pure one |
| InterpreterImpl.Interpreter.WhileLoop | src/Semantica/Interpreter.java:242-251 | a `while` in place matches the pure one |
| InterpreterImpl.Interpreter.WhileTurn | src/Semantica/Interpreter.java:243-248 | a turn of the loop in place matches the pure one |
| InterpreterImpl.Interpreter.VisitSwitch | src/Semantica/Interpreter.java:255-280 | a switch in place matches the pure one |
| InterpreterImpl.Interpreter.SwitchCases | src/Semantica/Interpreter.java:258-278 | the case loop in place matches the pure one |
| InterpreterImpl.Interpreter.VisitInput | src/Semantica/Interpreter.java:289-324 | an input statement in place matches the pure one |
| InterpreterImpl.Interpreter.RunLine | src/Semantica/Interpreter.java:296-308 | running the line read as a program in place matches the pure one |
| InterpreterImpl.Interpreter.RunStatements | src/Semantica/Interpreter.java:302-305 | the loop over the line's statements in place matches the pure one |
| InterpreterImpl.Interpreter.Interpret | src/Semantica/Interpreter.java:26-34 | interpreting a program in place matches the pure statement loop |
| AstHtml.RenderExprDefined | src/Utils/AstHtmlPrinter.java:12-42 | an expression prints exactly when it holds no increment or decrement node and no literal whose text is not modelled |
| AstHtml.RenderExprsDefined | src/Utils/AstHtmlPrinter.java:40 | call arguments print exactly when each of them does |
| AstHtml.RenderStmtDefined | src/Utils/AstHtmlPrinter.java:45-102 | a statement prints exactly when every expression and statement inside it does |
| AstHtml.RenderStmtsDefined | src/Utils/AstHtmlPrinter.java:57 | a statement list prints exactly when each statement does |
| AstHtml.RenderCasesDefined | src/Utils/AstHtmlPrinter.java:94 | a switch's arms print exactly when each arm's body does |
| AstHtml.RenderCaseDefined | src/Utils/AstHtmlPrinter.java:94 | one arm prints exactly when its body does |
| AstHtml.HtmlListAppend | src/Utils/AstHtmlPrinter.java:105-109 | the items of two lists side by side are the items of the joined list |
| AstHtml.OutlineExprs | src/Utils/AstHtmlPrinter.java:40 | each argument is one item |
| AstHtml.OutlineStmts | src/Utils/AstHtmlPrinter.java:57 | each statement is one item |
| AstHtml.OutlineCases | src/Utils/AstHtmlPrinter.java:94 | each arm is one item |
| AstHtml.HtmlListCons | src/Utils/AstHtmlPrinter.java:105-109 | an item followed by a list of items is the list with that item first |
| AstHtml.HtmlListOne | src/Utils/AstHtmlPrinter.java:105-109 | a one-item list is that item |
| AstHtml.RenderExprIsHtml | src/Utils/AstHtmlPrinter.java:12-42 | the printer writes exactly the nested list of the expression's tree of titles |
| AstHtml.RenderExprsIsHtml | src/Utils/AstHtmlPrinter.java:38-42 | the arguments print as their items, in order |
| AstHtml.RenderStmtIsHtml | src/Utils/AstHtmlPrinter.java:45-102 | the printer writes exactly the nested list of the statement's tree of titles |
| AstHtml.IfIsHtml | src/Utils/AstHtmlPrinter.java:65-70 | an `if` prints as the nested list of its tree of titles |
| AstHtml.IfOutlineHtml | src/Utils/AstHtmlPrinter.java:65-70 | an `if` is an item whose children are the condition, the then-branch and the else-branch when there is one |
| AstHtml.HtmlOfTwo | src/Utils/AstHtmlPrinter.java:105-109 | an item with two children wraps their items in one nested list |
| AstHtml.HtmlOfThree | src/Utils/AstHtmlPrinter.java:105-109 | an item with three children wraps their items in one nested list |
| AstHtml.SwitchIsHtml | src/Utils/AstHtmlPrinter.java:90-98 | a switch prints as the nested list of its tree of titles |
| AstHtml.SwitchOutlineHtml | src/Utils/AstHtmlPrinter.java:90-98 | a switch is an item holding the scrutinee, one `Case` item per arm and a `Default` item when there is one |
| AstHtml.HtmlListSplice | src/Utils/AstHtmlPrinter.java:105-109 | items concatenate across a split list |
| AstHtml.RenderStmtsIsHtml | src/Utils/AstHtmlPrinter.java:55-59 | a statement list prints as its items, in order |
| AstHtml.RenderCasesIsHtml | src/Utils/AstHtmlPrinter.java:94 | the arms print as their items, in order |
| AstHtml.RenderCaseIsHtml | src/Utils/AstHtmlPrinter.java:94 | an arm prints as a `Case` item holding its body |
| AstHtml.Page | src/Utils/AstHtmlPrinter.java:112-120 | the page is the fixed head, one item per statement in order, and the fixed tail, and exists exactly when every statement prints |
| AstHtml.TagIsItem | src/Utils/AstHtmlPrinter.java:105-109 | every tag is one list item, and a childless one has no nested list |
| AstHtml.RenderExprIsItem | src/Utils/AstHtmlPrinter.java:12-42 | every printed expression is exactly one list item |
| AstHtml.RenderStmtIsItem | src/Utils/AstHtmlPrinter.java:45-102 | every printed statement is exactly one list item |
| AstHtml.LeafExpressions | src/Utils/AstHtmlPrinter.java:22-32 | literals and variables print without a nested list |
| AstHtml.LeafStatements | src/Utils/AstHtmlPrinter.java:86-102 | `break` and input statements print without a nested list |
| AstHtml.JoinAssociates | src/Utils/AstHtmlPrinter.java:55-59 | joining partial renderings is associative |
| AstHtml.RenderStmtsCons | src/Utils/AstHtmlPrinter.java:57 | a statement list prints as its first statement followed by the rest |
| AstHtml.RenderStmtsAppend | src/Utils/AstHtmlPrinter.java:55-59 | a statement list printed in two parts is the two printings joined |
| AstHtml.RenderCasesIgnoresValues | src/Utils/AstHtmlPrinter.java:94 | arms with the same bodies print the same, whatever their values |
| AstHtml.SwitchIgnoresCaseValues | src/Utils/AstHtmlPrinter.java:90-98 | a switch prints the same whatever its arms' values are: only their bodies appear |
| ExprCollection.FlatMapAppend | src/ExprCollector.java:47-51 | reading the sites of two lists is reading each in turn |
| ExprCollection.CollectIsPreorder | src/ExprCollector.java:10-86 | a statement's visit appends the expressions each statement and arm holds itself, in pre-order |
| ExprCollection.CollectAllIsPreorder | src/ExprCollector.java:47-51 | a statement list's visits append their sites' expressions in pre-order |
| ExprCollection.CollectCasesIsPreorder | src/ExprCollector.java:69-72 | a switch's arms append their values and bodies' expressions in pre-order |
| ExprCollection.CollectCaseIsPreorder | src/ExprCollector.java:70-71 | an arm appends its value, then its body's expressions |
| ExprCollection.CollectAllAppend | src/ExprCollector.java:47-51 | the visits of two statement lists append one after the other |
| ExprCollection.ExprCollector.constructor | src/ExprCollector.java:4 | a new collector holds an empty list |
| ExprCollection.ExprCollector.GetExprs | src/ExprCollector.java:6-8 | the list returned is the list collected so far |
| ExprCollection.ExprCollector.VisitStmt | src/ExprCollector.java:10-86 | visiting a statement appends exactly what it collects, keeping what was there |
| ExprCollection.ExprCollector.VisitIf | src/ExprCollector.java:38-44 | an `if` appends its condition, then the then-branch's expressions, then the else-branch's |
| ExprCollection.ExprCollector.VisitWhile | src/ExprCollector.java:60-64 | a `while` appends its condition, then the body's expressions |
| ExprCollection.ExprCollector.VisitSwitch | src/ExprCollector.java:67-76 | a switch appends its scrutinee, each arm's value and body in order, then the default's body |
| ExprCollection.ExprCollector.VisitAll | src/ExprCollector.java:25-26 | a statement loop appends each statement's expressions in order |
| ExprCollection.ExprCollector.VisitCases | src/ExprCollector.java:69-72 | the arm loop appends each arm's value and body in order |
| ExprCollection.ExprCollector.VisitCase | src/ExprCollector.java:70-71 | an arm appends its value when present, then its body's expressions |
| ExprCollection.ExprCollector.VisitDefault | src/ExprCollector.java:73-74 | the default arm appends its body's expressions, not its value |

## Left out

- Standard error: `runtimeError`, the scanner's and parser's error reports and the interpreter's error message go to stderr. They are not part of any state. Only the fact that an error happened (a `false` result, a skipped token, a thrown parse, a `Thrown` completion) is modelled.
- Console I/O: standard output is the sequence of strings printed and standard input the sequence of lines still to be read. Reading with no line left is the `NoSuchElementException` that `Scanner.nextLine` throws. Blocking and buffering are not modelled.
- Double values: a double is kept as the text of its literal. Its arithmetic, ordering (`<`, `>`, `<=`, `>=`), negation, `Double.toString` (and with it the `.0` trimming of `stringify`) and the value `Double.parseDouble` returns are not computed, and a run that reaches one of these stops with an explicit `Unmodelled` outcome. Equality is computed where the text settles it: `==`, `!=` and switch matching hold for two doubles with the same text, and are false between a double and any value that is not a double. Two doubles written differently (`1.0` and `1.00`) stop as `Unmodelled("double equality")`, because telling whether they are the same number needs their decimal values.
- Interpreting.BinaryOp: the interpreter's `/` always produces a double (src/Semantica/Interpreter.java:77), so every division that does not throw stops as `Unmodelled("double division")`, a division of two ints included.
- Interpreting.BinaryOp: a denominator that is a double equal to zero (`0.0`) also stops as `Unmodelled("double division")`, where the program throws "Divisão por zero." (src/Semantica/Interpreter.java:74-76); only an int zero denominator is modelled as the error.
- Values.Stringify: returns `None` for doubles and functions instead of their Java text.
- Values.InputValue: returns `None` for a line that parses only as a double, instead of the double.
- Double parsing: the model states which strings `Double.parseDouble` accepts, not the value it returns.
- Unbounded execution: the VM's `while (true)` loop and the interpreter's recursion run on a `fuel` bound. A run that uses it up ends with `OutOfFuel`; nothing is claimed about programs that need more steps.
- Java's object identity: interpreter environments live in an arena indexed by number. Sharing between closures is kept through the indices; Java's garbage collection is not modelled.
- Host library: `Character.isLetter` and `isLetterOrDigit` are restricted to ASCII letters and digits, and `Integer.parseInt` to ASCII digits.
- Increment and decrement in the HTML printer: `AstHtmlPrinter` has no visitor for them, so a tree holding one has no rendering (`None`).
- Interpreting.AcceptExpr: `Interpreter` has no visitor for increment and decrement nodes either, so evaluating one stops as `Unmodelled("increment has no visitor")` or `Unmodelled("decrement has no visitor")`. The parser never builds these nodes (`Parsing.TightHasNoStepNode`).
- VirtualMachineImpl.VM.ReadName (and the pure `VirtualMachine.ReadName`): a null pool entry used as a global's name stops the run as `Unmodelled("null variable name")`, where `VM` would cast it to a null `String` and use it as a `HashMap` key. Compiled code never reaches this, because the compiler always pools the name as a string.
- The HTML printer's file write: `gerarHtml` writes the page to a file and prints a message. `AstHtml.Page` models only the text of the page. No HTML escaping is done by the source, nor by the model.
- The constant pool's size: the chunk stores constant indices as Java `Integer`s, and nothing in the code limits the pool to 256 entries. The model follows the code: indices are not truncated to a byte.
- `getExprs` returns the collector's live list. The model returns its value; later appends visible through the returned list are not modelled.
- `VM.copyPasteHelper` is dead code: nothing calls it.
- The compiler's unimplemented visitors (call, function, return, break and switch) emit nothing. The model emits nothing for them too.
- src/Main.java is not part of this model: it reads a fixed file and wires the stages together.
- src/Lexica/TokenType.java is not part of this model: the token kinds are the ones the scanner and parser use.

/**
 * The single-pass bytecode compiler: walks the syntax tree and appends to one
 * chunk, reserving two-byte operands for forward jumps and back-patching them
 * once the target is known.
 *
 * The functions here describe the chunk each visitor leaves behind, or `Err`
 * when the Java code throws. A throw anywhere makes `compile` return `null`,
 * so the partly written chunk of a failed visitor is never observed.
 */
module BytecodeCompiler {
  import opened Wrappers
  import opened Values
  import opened Tokens
  import opened Ast
  import opened OpCodes
  import opened Chunks

  /** The largest distance a 16-bit jump operand can hold. */
  const MaxJump: int := 65535

  /** `c2` is `c1` with bytes, constants and lines appended (and nothing overwritten). */
  predicate Extends(c1: ChunkData, c2: ChunkData)
  {
    c1.code <= c2.code && c1.constants <= c2.constants && c1.lines <= c2.lines &&
    |c2.code| - |c1.code| == |c2.lines| - |c1.lines|
  }

  lemma ExtendsTransitive(c1: ChunkData, c2: ChunkData, c3: ChunkData)
    requires Extends(c1, c2) && Extends(c2, c3)
    ensures Extends(c1, c3)
  {
  }

  /** `emitJump`: the opcode and two placeholder bytes; the result is the first placeholder's index. */
  function EmitJump(c: ChunkData, op: OpCode, line: int): (r: (ChunkData, nat))
    ensures r.0.code == c.code + [Ordinal(op), 0xFF, 0xFF]
    ensures r.1 == |c.code| + 1 && r.1 + 2 == |r.0.code|
    ensures r.0.constants == c.constants && r.0.lines == c.lines + [line, line, line]
  {
    (c.WriteOp(op, line).Write(0xFF, line).Write(0xFF, line), |c.code| + 1)
  }

  /**
   * `patchJump(offset)`: the distance from just after the operand to the end
   * of the code, big-endian, in place of the placeholder; too far is an error.
   */
  function PatchJump(c: ChunkData, offset: nat): (r: Result<ChunkData>)
    requires offset + 2 <= |c.code|
    ensures r.Ok? <==> |c.code| - offset - 2 <= MaxJump
    ensures r.Ok? ==> r.value.constants == c.constants && r.value.lines == c.lines
    ensures r.Ok? ==> |r.value.code| == |c.code|
    ensures r.Ok? ==> forall i :: 0 <= i < |c.code| && i != offset && i != offset + 1 ==> r.value.code[i] == c.code[i]
    ensures r.Ok? ==> r.value.code[offset] * 256 + r.value.code[offset + 1] == |c.code| - offset - 2
    ensures r.Ok? ==> 0 <= r.value.code[offset] < 256 && 0 <= r.value.code[offset + 1] < 256
  {
    var jump := |c.code| - offset - 2;
    if jump > MaxJump then Err("Salto muito longo para o bytecode.")
    else Ok(c.(code := c.code[offset := jump / 256][offset + 1 := jump % 256]))
  }

  /**
   * `emitLoop(loopStart)`: `OP_LOOP` and the distance back from just after its
   * operand to `loopStart`, big-endian; too far is an error.
   */
  function EmitLoop(c: ChunkData, loopStart: nat, line: int): (r: Result<ChunkData>)
    requires loopStart <= |c.code|
    ensures r.Ok? <==> |c.code| + 3 - loopStart <= MaxJump
    ensures r.Ok? ==> |r.value.code| == |c.code| + 3 && r.value.code[..|c.code|] == c.code
    ensures r.Ok? ==> r.value.code[|c.code|] == Ordinal(OpLoop)
    ensures r.Ok? ==> |c.code| + 3 - (r.value.code[|c.code| + 1] * 256 + r.value.code[|c.code| + 2]) == loopStart
    ensures r.Ok? ==> 0 <= r.value.code[|c.code| + 1] < 256 && 0 <= r.value.code[|c.code| + 2] < 256
    ensures r.Ok? ==> r.value.constants == c.constants && r.value.lines == c.lines + [line, line, line]
  {
    var c1 := c.WriteOp(OpLoop, line);
    var offset := |c1.code| - loopStart + 2;
    if offset > MaxJump then Err("Loop muito longo para o bytecode.")
    else Ok(c1.Write(offset / 256, line).Write(offset % 256, line))
  }

  /** The opcodes a binary operator lowers to; `None` where the compiler throws (`%` among them). */
  function BinaryOpcodes(kind: TokenType): (r: Option<seq<OpCode>>)
    ensures kind == BangEqual ==> r == Some([OpEqual, OpNot])
    ensures kind == LessEqual ==> r == Some([OpGreater, OpNot])
    ensures kind == GreaterEqual ==> r == Some([OpLess, OpNot])
    ensures r.Some? <==> kind in {Plus, Minus, Star, Slash, EqualEqual, BangEqual, Greater, LessEqual, Less, GreaterEqual}
    ensures r.Some? ==> 1 <= |r.value| <= 2 && OpNot !in r.value[..|r.value| - 1]
  {
    match kind
    case Plus => Some([OpAdd])
    case Minus => Some([OpSubtract])
    case Star => Some([OpMultiply])
    case Slash => Some([OpDivide])
    case EqualEqual => Some([OpEqual])
    case BangEqual => Some([OpEqual, OpNot])
    case Greater => Some([OpGreater])
    case LessEqual => Some([OpGreater, OpNot])
    case Less => Some([OpLess])
    case GreaterEqual => Some([OpLess, OpNot])
    case _ => None
  }

  /** Write each opcode in turn, all with the same line. */
  function WriteOps(c: ChunkData, ops: seq<OpCode>, line: int): (r: ChunkData)
    ensures Extends(c, r) && r.constants == c.constants && |r.code| == |c.code| + |ops|
    ensures forall i :: 0 <= i < |ops| ==> r.code[|c.code| + i] == Ordinal(ops[i])
    decreases |ops|
  {
    if ops == [] then c
    else
      var r := WriteOps(c.WriteOp(ops[0], line), ops[1..], line);
      ExtendsTransitive(c, c.WriteOp(ops[0], line), r);
      r
  }

  lemma WriteOpsOne(c: ChunkData, a: OpCode, line: int)
    ensures WriteOps(c, [a], line) == c.WriteOp(a, line)
  {
    assert [a][1..] == [];
  }

  lemma WriteOpsTwo(c: ChunkData, a: OpCode, b: OpCode, line: int)
    ensures WriteOps(c, [a, b], line) == c.WriteOp(a, line).WriteOp(b, line)
  {
    assert [a, b][1..] == [b];
    WriteOpsOne(c.WriteOp(a, line), b, line);
  }

  /** `OP_xxx k` for a global named by a fresh constant `k`. */
  function EmitNamed(c: ChunkData, op: OpCode, name: Token): (r: (ChunkData, nat))
    ensures r.1 == |c.constants| && r.0.constants == c.constants + [Str(name.lexeme)]
    ensures r.0.code == c.code + [Ordinal(op), r.1] && r.0.lines == c.lines + [name.line, name.line]
    ensures Extends(c, r.0)
  {
    var (c1, k) := c.AddConstant(Str(name.lexeme));
    (c1.WriteOp(op, name.line).Write(k, name.line), k)
  }

  /** `visitIncrementoExpr` / `visitDecrementoExpr`: read, add or subtract a fresh constant 1, write back. */
  function EmitStep(c: ChunkData, name: Token, arith: OpCode): (r: ChunkData)
    ensures Extends(c, r)
    ensures r.constants == c.constants + [Str(name.lexeme), Int(1)]
    ensures r.code == c.code + [Ordinal(OpGetGlobal), |c.constants|, Ordinal(OpConstant), |c.constants| + 1,
                                Ordinal(arith), Ordinal(OpSetGlobal), |c.constants|]
  {
    var (c1, k) := c.AddConstant(Str(name.lexeme));
    var c2 := c1.WriteOp(OpGetGlobal, name.line).Write(k, name.line).WriteOp(OpConstant, name.line);
    var (c3, one) := c2.AddConstant(Int(1));
    c3.Write(one, name.line).WriteOp(arith, name.line).WriteOp(OpSetGlobal, name.line).Write(k, name.line)
  }

  /**
   * `visitLiteralExpr`: `null` is `OP_NIL`, a `Boolean` is `OP_TRUE`/`OP_FALSE`,
   * anything else a fresh constant.
   */
  function EmitLiteral(c: ChunkData, v: Value): (r: ChunkData)
    ensures Extends(c, r)
    ensures v == Nil ==> r.code == c.code + [Ordinal(OpNil)] && r.constants == c.constants
    ensures v.Bool? ==> r.code == c.code + [Ordinal(if v.b then OpTrue else OpFalse)] && r.constants == c.constants
    ensures !v.Nil? && !v.Bool? ==>
      r.code == c.code + [Ordinal(OpConstant), |c.constants|] && r.constants == c.constants + [v]
  {
    match v
    case Nil => c.WriteOp(OpNil, 0)
    case Bool(b) => c.WriteOp(if b then OpTrue else OpFalse, 0)
    case _ =>
      var (c1, k) := c.AddConstant(v);
      c1.WriteOp(OpConstant, 0).Write(k, 0)
  }

  /** The `switch` of `visitBinaryExpr`: the operator's opcodes, or an error for an operator that has none. */
  function EmitOperator(c: ChunkData, operator: Token): (r: Result<ChunkData>)
    ensures r.Ok? <==> BinaryOpcodes(operator.kind).Some?
    ensures r.Ok? ==> Extends(c, r.value) && r.value.constants == c.constants
    ensures r.Ok? ==> r.value.code == c.code + Ordinals(BinaryOpcodes(operator.kind).value)
  {
    match BinaryOpcodes(operator.kind)
    case None => Err("Operador binário desconhecido")
    case Some(ops) =>
      WriteOpsCode(c, ops, operator.line);
      Ok(WriteOps(c, ops, operator.line))
  }

  /** The expression visitors. */
  function EmitExpr(c: ChunkData, e: Expr): (r: Result<ChunkData>)
    ensures r.Ok? ==> Extends(c, r.value)
    decreases e
  {
    match e
    case Assign(name, value) =>
      var c1 :- EmitExpr(c, value);
      var (c2, _) := EmitNamed(c1, OpSetGlobal, name);
      ExtendsTransitive(c, c1, c2);
      Ok(c2)
    case Binary(left, operator, right) =>
      var c1 :- EmitExpr(c, left);
      var c2 :- EmitExpr(c1, right);
      var c3 :- EmitOperator(c2, operator);
      ExtendsTransitive(c, c1, c2);
      ExtendsTransitive(c, c2, c3);
      Ok(c3)
    case Call(_, _, _) => Ok(c)
    case Grouping(inner) => EmitExpr(c, inner)
    case Literal(v) =>
      Ok(EmitLiteral(c, v))
    case Unary(operator, right) =>
      var c1 :- EmitExpr(c, right);
      if operator.kind == Minus then
        ExtendsTransitive(c, c1, c1.WriteOp(OpNegate, operator.line));
        Ok(c1.WriteOp(OpNegate, operator.line))
      else if operator.kind == Bang then
        ExtendsTransitive(c, c1, c1.WriteOp(OpNot, operator.line));
        Ok(c1.WriteOp(OpNot, operator.line))
      else Err("Operador unário desconhecido")
    case Variable(name) => Ok(EmitNamed(c, OpGetGlobal, name).0)
    case Incremento(name, _, _) => Ok(EmitStep(c, name, OpAdd))
    case Decremento(name, _, _) => Ok(EmitStep(c, name, OpSubtract))
  }

  /** The statement visitors. */
  function EmitStmt(c: ChunkData, s: Stmt): (r: Result<ChunkData>)
    ensures r.Ok? ==> Extends(c, r.value)
    decreases s, 3
  {
    match s
    case Print(e) =>
      var c1 :- EmitExpr(c, e);
      ExtendsTransitive(c, c1, c1.WriteOp(OpPrint, 0));
      Ok(c1.WriteOp(OpPrint, 0))
    case Var(_, name, initializer) =>
      var c1 :- if initializer.Some? then EmitExpr(c, initializer.value) else Ok(c.WriteOp(OpNil, name.line));
      var (c2, _) := EmitNamed(c1, OpDefineGlobal, name);
      ExtendsTransitive(c, c1, c2);
      Ok(c2)
    case Function(_, _, _) => Ok(c)
    case Return(_, _) => Ok(c)
    case Break => Ok(c)
    case Switch(_, _, _) => Ok(c)
    case If(_, _, _) => EmitIf(c, s)
    case Block(statements) => EmitStmts(c, statements)
    case Expression(e) =>
      var c1 :- EmitExpr(c, e);
      ExtendsTransitive(c, c1, c1.WriteOp(OpPop, 0));
      Ok(c1.WriteOp(OpPop, 0))
    case While(_, _) => EmitWhile(c, s)
    case Input(name) => Ok(EmitInput(c, name))
  }

  /** `visitInputStmt`: `OP_INPUT`, then `OP_SET_GLOBAL k` for a fresh constant `k` holding the name, then `OP_POP`. */
  function EmitInput(c: ChunkData, name: Token): (r: ChunkData)
    ensures Extends(c, r)
    ensures r.constants == c.constants + [Str(name.lexeme)]
    ensures r.code == c.code + [Ordinal(OpInput), Ordinal(OpSetGlobal), |c.constants|, Ordinal(OpPop)]
  {
    var c1 := c.WriteOp(OpInput, name.line);
    var (c2, _) := EmitNamed(c1, OpSetGlobal, name);
    c2.WriteOp(OpPop, name.line)
  }

  /**
   * `visitIfStmt`: condition, `OP_JUMP_IF_FALSE`, then-branch, `OP_JUMP`,
   * patch the first jump, else-branch if any, patch the second. The condition
   * is left on the stack on both paths: no `OP_POP` is emitted.
   */
  function EmitIf(c: ChunkData, s: Stmt): (r: Result<ChunkData>)
    requires s.If?
    ensures r.Ok? ==> Extends(c, r.value)
    decreases s, 2
  {
    var c1 :- EmitExpr(c, s.condition);
    var c2 := EmitJump(c1, OpJumpIfFalse, 0).0;
    var c3 :- EmitStmt(c2, s.thenBranch);
    ExtendsTransitive(c1, c2, c3);
    var r := IfTail(c1, c3, s);
    if r.Err? then r
    else
      ExtendsTransitive(c, c1, r.value);
      r
  }

  /**
   * The rest of `visitIfStmt` once the then-branch is written (`c3`): `OP_JUMP`,
   * patch the first jump (whose placeholder follows the condition's code
   * `c1`), the else-branch if any, patch the second.
   */
  function IfTail(c1: ChunkData, c3: ChunkData, s: Stmt): (r: Result<ChunkData>)
    requires s.If? && Extends(c1, c3) && |c1.code| + 3 <= |c3.code|
    ensures r.Ok? ==> Extends(c1, r.value)
    decreases s, 1
  {
    var c4 := EmitJump(c3, OpJump, 0).0;
    var c5 :- PatchJump(c4, |c1.code| + 1);
    var c6 :- EmitElse(c5, s);
    var r7 := PatchJump(c6, |c3.code| + 1);
    if r7.Err? then r7
    else
      IfTailExtends(c1, c3, c4, c5, c6, r7.value);
      r7
  }

  /**
   * `visitWhileStmt`: condition, `OP_JUMP_IF_FALSE`, body, `OP_LOOP` back to
   * the condition, then patch the exit jump. No `OP_POP` of the condition.
   */
  function EmitWhile(c: ChunkData, s: Stmt): (r: Result<ChunkData>)
    requires s.While?
    ensures r.Ok? ==> Extends(c, r.value)
    decreases s, 2
  {
    var loopStart := |c.code|;
    var c1 :- EmitExpr(c, s.condition);
    var c2 := EmitJump(c1, OpJumpIfFalse, 0).0;
    var exitJump := |c1.code| + 1;
    var c3 :- EmitStmt(c2, s.loopBody);
    WhileBodyExtends(c, c1, c2, c3, exitJump);
    var r := CloseLoop(c3, loopStart, exitJump);
    if r.Err? then r
    else
      WhileExtends(c, c3, r.value, exitJump);
      r
  }

  /**
   * The end of `visitWhileStmt`: `OP_LOOP` back to `loopStart`, then the
   * exit jump patched to land after it. Only the placeholder bytes at
   * `exitJump` change in the code written so far.
   */
  function CloseLoop(c: ChunkData, loopStart: nat, exitJump: nat): (r: Result<ChunkData>)
    requires loopStart <= exitJump && exitJump + 2 <= |c.code|
    ensures r.Ok? ==> |r.value.code| == |c.code| + 3 && r.value.code[..exitJump] == c.code[..exitJump]
    ensures r.Ok? ==> r.value.constants == c.constants && r.value.lines == c.lines + [0, 0, 0]
  {
    var c4 :- EmitLoop(c, loopStart, 0);
    var r5 := PatchJump(c4, exitJump);
    if r5.Ok? then
      assert r5.value.code[..exitJump] == c4.code[..exitJump];
      r5
    else r5
  }

  /** The else-branch of an `if`, when there is one. */
  function EmitElse(c: ChunkData, s: Stmt): (r: Result<ChunkData>)
    requires s.If?
    ensures r.Ok? ==> Extends(c, r.value)
    decreases s, 0
  {
    if s.elseBranch.Some? then EmitStmt(c, s.elseBranch.value) else Ok(c)
  }

  /** The statements of a block (or a program), in order; the first failure stops. */
  function EmitStmts(c: ChunkData, ss: seq<Stmt>): (r: Result<ChunkData>)
    ensures r.Ok? ==> Extends(c, r.value)
    decreases ss, 3
  {
    if ss == [] then Ok(c)
    else
      var c1 :- EmitStmt(c, ss[0]);
      var c2 :- EmitStmts(c1, ss[1..]);
      ExtendsTransitive(c, c1, c2);
      Ok(c2)
  }

  lemma IfTailExtends(c1: ChunkData, c3: ChunkData, c4: ChunkData, c5: ChunkData, c6: ChunkData, c7: ChunkData)
    requires Extends(c1, c3) && |c1.code| + 3 <= |c3.code|
    requires c4 == EmitJump(c3, OpJump, 0).0
    requires PatchJump(c4, |c1.code| + 1) == Ok(c5)
    requires Extends(c5, c6)
    requires |c3.code| + 3 <= |c6.code| && PatchJump(c6, |c3.code| + 1) == Ok(c7)
    ensures Extends(c1, c7)
  {
    assert Extends(c3, c4);
    ExtendsTransitive(c1, c3, c4);
    assert Extends(c1, c5) by {
      assert c5.code[..|c1.code|] == c4.code[..|c1.code|];
    }
    ExtendsTransitive(c1, c5, c6);
    assert c7.code[..|c1.code|] == c6.code[..|c1.code|];
  }

  lemma WhileBodyExtends(c: ChunkData, c1: ChunkData, c2: ChunkData, c3: ChunkData, exitJump: nat)
    requires Extends(c, c1)
    requires (c2, exitJump) == EmitJump(c1, OpJumpIfFalse, 0)
    requires Extends(c2, c3)
    ensures Extends(c, c3) && |c.code| <= exitJump && exitJump + 2 <= |c3.code|
  {
    assert Extends(c1, c2);
    ExtendsTransitive(c, c1, c2);
    ExtendsTransitive(c, c2, c3);
  }

  lemma WhileExtends(c: ChunkData, c3: ChunkData, c5: ChunkData, exitJump: nat)
    requires Extends(c, c3) && |c.code| <= exitJump <= |c3.code|
    requires |c5.code| == |c3.code| + 3 && c5.code[..exitJump] == c3.code[..exitJump]
    requires c5.constants == c3.constants && c5.lines == c3.lines + [0, 0, 0]
    ensures Extends(c, c5)
  {
    assert c5.code[..|c.code|] == c3.code[..exitJump][..|c.code|];
  }

  /** `compile`: every statement, then `OP_RETURN`; `None` (Java `null`) if any visitor throws. */
  function Compile(statements: seq<Stmt>): (r: Option<ChunkData>)
    ensures r.Some? <==> EmitStmts(EmptyChunk, statements).Ok?
    ensures r.Some? ==> r.value.Valid() && |r.value.code| > 0 && r.value.code[|r.value.code| - 1] == Ordinal(OpReturn)
    ensures r.Some? ==> r.value.code == EmitStmts(EmptyChunk, statements).value.code + [Ordinal(OpReturn)]
    ensures r.Some? ==> r.value.constants == EmitStmts(EmptyChunk, statements).value.constants
  {
    match EmitStmts(EmptyChunk, statements)
    case Ok(c) => Some(c.WriteOp(OpReturn, 0))
    case Err(_) => None
  }

  // ---------------------------------------------------------------------
  // What each straight-line visitor writes
  // ---------------------------------------------------------------------

  /** The bytes of a sequence of opcodes. */
  function Ordinals(ops: seq<OpCode>): seq<int>
  {
    seq(|ops|, i requires 0 <= i < |ops| => Ordinal(ops[i]))
  }

  /** Writing opcodes appends exactly their bytes. */
  lemma WriteOpsCode(c: ChunkData, ops: seq<OpCode>, line: int)
    ensures WriteOps(c, ops, line).code == c.code + Ordinals(ops)
  {
    var r := WriteOps(c, ops, line);
    assert r.code[..|c.code|] == c.code;
    assert forall i :: 0 <= i < |ops| ==> r.code[|c.code| + i] == Ordinals(ops)[i];
  }

  /** A binary expression is its left operand's code, then its right operand's, then the operator's opcodes. */
  lemma BinaryShape(c: ChunkData, left: Expr, operator: Token, right: Expr)
    ensures EmitExpr(c, Binary(left, operator, right)).Ok? <==>
              EmitExpr(c, left).Ok? && EmitExpr(EmitExpr(c, left).value, right).Ok? && BinaryOpcodes(operator.kind).Some?
    ensures EmitExpr(c, Binary(left, operator, right)).Ok? ==>
              var c1 := EmitExpr(c, left).value;
              var c2 := EmitExpr(c1, right).value;
              && c.code <= c1.code && c1.code <= c2.code
              && EmitExpr(c, Binary(left, operator, right)).value.code == c2.code + Ordinals(BinaryOpcodes(operator.kind).value)
  {
    var r := EmitExpr(c, Binary(left, operator, right));
    if EmitExpr(c, left).Err? {
      assert r.Err?;
    } else {
      var c1 := EmitExpr(c, left).value;
      if EmitExpr(c1, right).Err? {
        assert r.Err?;
      } else {
        assert r == EmitOperator(EmitExpr(c1, right).value, operator);
      }
    }
  }

  /** `-` and `!` are the operand's code, then `OP_NEGATE` or `OP_NOT`; any other unary operator throws. */
  lemma UnaryShape(c: ChunkData, operator: Token, right: Expr)
    ensures EmitExpr(c, Unary(operator, right)).Ok? <==> EmitExpr(c, right).Ok? && operator.kind in {Minus, Bang}
    ensures EmitExpr(c, Unary(operator, right)).Ok? ==>
              EmitExpr(c, Unary(operator, right)).value.code
              == EmitExpr(c, right).value.code + [Ordinal(if operator.kind == Minus then OpNegate else OpNot)]
  {
  }

  /**
   * A variable is `OP_GET_GLOBAL k`, with `k` a fresh constant holding the
   * name; a grouping is its inner expression's code, and a call compiles to
   * nothing.
   */
  lemma NamedShapes(c: ChunkData, name: Token, e: Expr, paren: Token, arguments: seq<Expr>)
    ensures EmitExpr(c, Variable(name)) ==
              Ok(ChunkData(c.code + [Ordinal(OpGetGlobal), |c.constants|], c.constants + [Str(name.lexeme)],
                           c.lines + [name.line, name.line]))
    ensures EmitExpr(c, Grouping(e)) == EmitExpr(c, e)
    ensures EmitExpr(c, Call(e, paren, arguments)) == Ok(c)
  {
  }

  /** An assignment is the new value's code, then `OP_SET_GLOBAL k` with `k` a fresh constant holding the name. */
  lemma AssignShape(c: ChunkData, name: Token, e: Expr)
    ensures EmitExpr(c, Assign(name, e)).Ok? <==> EmitExpr(c, e).Ok?
    ensures EmitExpr(c, Assign(name, e)).Ok? ==>
              var c1 := EmitExpr(c, e).value;
              && EmitExpr(c, Assign(name, e)).value.code == c1.code + [Ordinal(OpSetGlobal), |c1.constants|]
              && EmitExpr(c, Assign(name, e)).value.constants == c1.constants + [Str(name.lexeme)]
  {
    if EmitExpr(c, e).Ok? {
      var c1 := EmitExpr(c, e).value;
      assert EmitExpr(c, Assign(name, e)) == Ok(EmitNamed(c1, OpSetGlobal, name).0);
    }
  }

  /** An expression statement is the expression's code, then `OP_POP`. */
  lemma ExpressionShape(c: ChunkData, e: Expr)
    ensures EmitStmt(c, Expression(e)).Ok? <==> EmitExpr(c, e).Ok?
    ensures EmitExpr(c, e).Ok? ==>
              && EmitStmt(c, Expression(e)).value.code == EmitExpr(c, e).value.code + [Ordinal(OpPop)]
              && EmitStmt(c, Expression(e)).value.constants == EmitExpr(c, e).value.constants
  {
    if EmitExpr(c, e).Ok? {
      var c1 := EmitExpr(c, e).value;
      assert EmitStmt(c, Expression(e)) == Ok(c1.WriteOp(OpPop, 0));
    }
  }

  /** A print statement is the expression's code, then `OP_PRINT`. */
  lemma PrintShape(c: ChunkData, e: Expr)
    ensures EmitStmt(c, Print(e)).Ok? <==> EmitExpr(c, e).Ok?
    ensures EmitExpr(c, e).Ok? ==>
              && EmitStmt(c, Print(e)).value.code == EmitExpr(c, e).value.code + [Ordinal(OpPrint)]
              && EmitStmt(c, Print(e)).value.constants == EmitExpr(c, e).value.constants
  {
    if EmitExpr(c, e).Ok? {
      var c1 := EmitExpr(c, e).value;
      assert EmitStmt(c, Print(e)) == Ok(c1.WriteOp(OpPrint, 0));
    }
  }

  /** `var x;` is `OP_NIL, OP_DEFINE_GLOBAL k`, where `k` is a fresh constant holding `x`. */
  lemma VarShape(c: ChunkData, typeToken: Option<Token>, name: Token)
    ensures EmitStmt(c, Var(typeToken, name, None)).Ok?
    ensures var r := EmitStmt(c, Var(typeToken, name, None)).value;
            && r.code == c.code + [Ordinal(OpNil), Ordinal(OpDefineGlobal), |c.constants|]
            && r.constants == c.constants + [Str(name.lexeme)]
  {
    var c1 := c.WriteOp(OpNil, name.line);
    var c2 := EmitNamed(c1, OpDefineGlobal, name).0;
    assert EmitStmt(c, Var(typeToken, name, None)) == Ok(c2);
  }

  /** `var x = e;` is `e`'s code, then `OP_DEFINE_GLOBAL k`, where `k` is a fresh constant holding `x`. */
  lemma VarInitShape(c: ChunkData, typeToken: Option<Token>, name: Token, e: Expr)
    ensures EmitStmt(c, Var(typeToken, name, Some(e))).Ok? <==> EmitExpr(c, e).Ok?
    ensures EmitExpr(c, e).Ok? ==>
              var c1 := EmitExpr(c, e).value;
              && EmitStmt(c, Var(typeToken, name, Some(e))).value.code == c1.code + [Ordinal(OpDefineGlobal), |c1.constants|]
              && EmitStmt(c, Var(typeToken, name, Some(e))).value.constants == c1.constants + [Str(name.lexeme)]
  {
    if EmitExpr(c, e).Ok? {
      var c1 := EmitExpr(c, e).value;
      assert EmitStmt(c, Var(typeToken, name, Some(e))) == Ok(EmitNamed(c1, OpDefineGlobal, name).0);
    }
  }

  /** Function declarations, `return`, `break` and `switch` have no visitor body: they write nothing. */
  lemma UncompiledStatements(c: ChunkData, s: Stmt)
    requires s.Function? || s.Return? || s.Break? || s.Switch?
    ensures EmitStmt(c, s) == Ok(c)
  {
  }

  /** Compiling a list in two parts is compiling the first part, then the second from where it left the chunk. */
  lemma {:induction false} EmitStmtsAppend(c: ChunkData, a: seq<Stmt>, b: seq<Stmt>)
    ensures EmitStmts(c, a + b) == match EmitStmts(c, a) case Ok(c1) => EmitStmts(c1, b) case Err(e) => Err(e)
    decreases |a|
  {
    if a == [] {
      assert a + b == b;
    } else {
      assert (a + b)[0] == a[0] && (a + b)[1..] == a[1..] + b;
      var r := EmitStmt(c, a[0]);
      if r.Ok? {
        EmitStmtsAppend(r.value, a[1..], b);
      }
    }
  }

  /**
   * In a compiled program, the `i`-th statement is compiled after the ones
   * before it, and its code is a prefix of the program's code: what is
   * proved about one statement's code holds in the whole program.
   */
  lemma StatementInProgram(statements: seq<Stmt>, i: nat)
    requires i < |statements| && Compile(statements).Some?
    ensures EmitStmts(EmptyChunk, statements[..i]).Ok?
    ensures var ci := EmitStmts(EmptyChunk, statements[..i]).value;
            && EmitStmt(ci, statements[i]).Ok?
            && EmitStmt(ci, statements[i]).value.code <= Compile(statements).value.code
  {
    assert statements == statements[..i] + statements[i..];
    EmitStmtsAppend(EmptyChunk, statements[..i], statements[i..]);
    var ci := EmitStmts(EmptyChunk, statements[..i]).value;
    var rest := statements[i..];
    assert rest[0] == statements[i];
    var c1 := EmitStmt(ci, rest[0]).value;
    var c2 := EmitStmts(c1, rest[1..]).value;
    assert c2 == EmitStmts(EmptyChunk, statements).value;
    assert c1.code <= c2.code;
  }
}

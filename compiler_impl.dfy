/**
 * The compiler as the Java class has it: one `currentChunk` field that every
 * visitor appends to, with jump placeholders overwritten in place. Each method
 * is proved to leave the chunk exactly as the matching function of
 * `BytecodeCompiler` describes; `ok == false` stands for the Java exception,
 * after which `compile` discards the chunk.
 */
module BytecodeCompilerImpl {
  import opened Wrappers
  import opened Values
  import opened Tokens
  import opened Ast
  import opened OpCodes
  import opened Chunks
  import opened BytecodeCompiler

  class Compiler {
    var currentChunk: Chunk?

    constructor()
      ensures currentChunk == null
    {
      currentChunk := null;
    }

    /** `compile`: a fresh chunk, every statement, `OP_RETURN`; `null` if a visitor throws. */
    method Compile(statements: seq<Stmt>) returns (result: Chunk?)
      modifies this
      ensures result == null <==> BytecodeCompiler.Compile(statements).None?
      ensures result != null ==> fresh(result) && result.Data() == BytecodeCompiler.Compile(statements).value
    {
      currentChunk := new Chunk();
      var i := 0;
      while i < |statements|
        invariant 0 <= i <= |statements|
        invariant fresh(currentChunk)
        invariant EmitStmts(EmptyChunk, statements) == EmitStmts(currentChunk.Data(), statements[i..])
      {
        var ok := VisitStmt(statements[i]);
        if !ok {
          return null;
        }
        assert statements[i..][1..] == statements[i + 1..];
        i := i + 1;
      }
      currentChunk.WriteOp(OpReturn, 0);
      result := currentChunk;
    }

    /** `emitJump`: the opcode and two `0xFF` placeholders; returns the first placeholder's index. */
    method EmitJump(op: OpCode, line: int) returns (offset: nat)
      requires currentChunk != null
      modifies currentChunk
      ensures (currentChunk.Data(), offset) == BytecodeCompiler.EmitJump(old(currentChunk.Data()), op, line)
    {
      currentChunk.WriteOp(op, line);
      currentChunk.Write(0xFF, line);
      currentChunk.Write(0xFF, line);
      offset := |currentChunk.code| - 2;
    }

    /** `patchJump`: throws (and writes nothing) when the distance does not fit in 16 bits. */
    method PatchJump(offset: nat) returns (ok: bool)
      requires currentChunk != null && offset + 2 <= |currentChunk.code|
      modifies currentChunk
      ensures ok <==> BytecodeCompiler.PatchJump(old(currentChunk.Data()), offset).Ok?
      ensures ok ==> currentChunk.Data() == BytecodeCompiler.PatchJump(old(currentChunk.Data()), offset).value
      ensures !ok ==> currentChunk.Data() == old(currentChunk.Data())
    {
      var jump := |currentChunk.code| - offset - 2;
      if jump > MaxJump {
        return false;
      }
      currentChunk.SetCode(offset, (jump / 256) % 256);
      currentChunk.SetCode(offset + 1, jump % 256);
      ok := true;
    }

    /** `emitLoop`: `OP_LOOP` and the backward distance; throws after the opcode when it does not fit. */
    method EmitLoop(loopStart: nat, line: int) returns (ok: bool)
      requires currentChunk != null && loopStart <= |currentChunk.code|
      modifies currentChunk
      ensures ok <==> BytecodeCompiler.EmitLoop(old(currentChunk.Data()), loopStart, line).Ok?
      ensures ok ==> currentChunk.Data() == BytecodeCompiler.EmitLoop(old(currentChunk.Data()), loopStart, line).value
    {
      currentChunk.WriteOp(OpLoop, line);
      var offset := |currentChunk.code| - loopStart + 2;
      if offset > MaxJump {
        return false;
      }
      currentChunk.Write((offset / 256) % 256, line);
      currentChunk.Write(offset % 256, line);
      ok := true;
    }

    /** `OP_xxx k` with `k` a fresh constant holding the name (variable read, assignment, definition). */
    method EmitNamed(op: OpCode, name: Token)
      requires currentChunk != null
      modifies currentChunk
      ensures currentChunk.Data() == BytecodeCompiler.EmitNamed(old(currentChunk.Data()), op, name).0
    {
      var k := currentChunk.AddConstant(Str(name.lexeme));
      currentChunk.WriteOp(op, name.line);
      currentChunk.Write(k, name.line);
    }

    /** `visitIncrementoExpr` (`arith == OpAdd`) and `visitDecrementoExpr` (`arith == OpSubtract`). */
    method EmitStep(name: Token, arith: OpCode)
      requires currentChunk != null
      modifies currentChunk
      ensures currentChunk.Data() == BytecodeCompiler.EmitStep(old(currentChunk.Data()), name, arith)
    {
      var k := currentChunk.AddConstant(Str(name.lexeme));
      currentChunk.WriteOp(OpGetGlobal, name.line);
      currentChunk.Write(k, name.line);
      currentChunk.WriteOp(OpConstant, name.line);
      var one := currentChunk.AddConstant(Int(1));
      currentChunk.Write(one, name.line);
      currentChunk.WriteOp(arith, name.line);
      currentChunk.WriteOp(OpSetGlobal, name.line);
      currentChunk.Write(k, name.line);
    }

    /** `visitLiteralExpr`. */
    method VisitLiteral(v: Value)
      requires currentChunk != null
      modifies currentChunk
      ensures currentChunk.Data() == EmitLiteral(old(currentChunk.Data()), v)
    {
      match v
      case Nil =>
        currentChunk.WriteOp(OpNil, 0);
      case Bool(b) =>
        currentChunk.WriteOp(if b then OpTrue else OpFalse, 0);
      case _ =>
        var k := currentChunk.AddConstant(v);
        currentChunk.WriteOp(OpConstant, 0);
        currentChunk.Write(k, 0);
    }

    /** `expr.accept(this)` for every expression visitor; `false` where the visitor throws. */
    method VisitExpr(e: Expr) returns (ok: bool)
      requires currentChunk != null
      modifies currentChunk
      ensures ok <==> EmitExpr(old(currentChunk.Data()), e).Ok?
      ensures ok ==> currentChunk.Data() == EmitExpr(old(currentChunk.Data()), e).value
      decreases e, 1
    {
      match e
      case Assign(name, value) =>
        ok := VisitExpr(value);
        if ok {
          EmitNamed(OpSetGlobal, name);
        }
      case Binary(_, _, _) =>
        ok := VisitBinary(e);
      case Call(_, _, _) =>
        ok := true;
      case Grouping(inner) =>
        ok := VisitExpr(inner);
      case Literal(v) =>
        VisitLiteral(v);
        ok := true;
      case Unary(_, _) =>
        ok := VisitUnary(e);
      case Variable(name) =>
        EmitNamed(OpGetGlobal, name);
        ok := true;
      case Incremento(name, _, _) =>
        EmitStep(name, OpAdd);
        ok := true;
      case Decremento(name, _, _) =>
        EmitStep(name, OpSubtract);
        ok := true;
    }

    /** `visitBinaryExpr`: both operands, then the operator's opcodes. */
    method VisitBinary(e: Expr) returns (ok: bool)
      requires currentChunk != null && e.Binary?
      modifies currentChunk
      ensures ok <==> EmitExpr(old(currentChunk.Data()), e).Ok?
      ensures ok ==> currentChunk.Data() == EmitExpr(old(currentChunk.Data()), e).value
      decreases e, 0
    {
      ok := VisitExpr(e.left);
      if !ok { return; }
      ok := VisitExpr(e.right);
      if !ok { return; }
      ok := EmitOperator(e.operator.kind, e.operator.line);
    }

    /** `visitUnaryExpr`: the operand, then `OP_NEGATE` or `OP_NOT`. */
    method VisitUnary(e: Expr) returns (ok: bool)
      requires currentChunk != null && e.Unary?
      modifies currentChunk
      ensures ok <==> EmitExpr(old(currentChunk.Data()), e).Ok?
      ensures ok ==> currentChunk.Data() == EmitExpr(old(currentChunk.Data()), e).value
      decreases e, 0
    {
      ok := VisitExpr(e.right);
      if !ok { return; }
      if e.operator.kind == Minus {
        currentChunk.WriteOp(OpNegate, e.operator.line);
      } else if e.operator.kind == Bang {
        currentChunk.WriteOp(OpNot, e.operator.line);
      } else {
        ok := false;
      }
    }

    /** An arm of the operator switch that writes one opcode. */
    method EmitOne(op: OpCode, line: int)
      requires currentChunk != null
      modifies currentChunk
      ensures currentChunk.Data() == WriteOps(old(currentChunk.Data()), [op], line)
    {
      WriteOpsOne(currentChunk.Data(), op, line);
      currentChunk.WriteOp(op, line);
    }

    /** An arm of the operator switch that writes an opcode and then `OP_NOT`. */
    method EmitTwo(a: OpCode, b: OpCode, line: int)
      requires currentChunk != null
      modifies currentChunk
      ensures currentChunk.Data() == WriteOps(old(currentChunk.Data()), [a, b], line)
    {
      WriteOpsTwo(currentChunk.Data(), a, b, line);
      currentChunk.WriteOp(a, line);
      currentChunk.WriteOp(b, line);
    }

    /** The `switch` of `visitBinaryExpr`; `false` where it throws on an unknown operator. */
    method EmitOperator(kind: TokenType, line: int) returns (ok: bool)
      requires currentChunk != null
      modifies currentChunk
      ensures ok <==> BinaryOpcodes(kind).Some?
      ensures ok ==> currentChunk.Data() == WriteOps(old(currentChunk.Data()), BinaryOpcodes(kind).value, line)
    {
      ok := true;
      match kind {
        case Plus => EmitOne(OpAdd, line);
        case Minus => EmitOne(OpSubtract, line);
        case Star => EmitOne(OpMultiply, line);
        case Slash => EmitOne(OpDivide, line);
        case EqualEqual => EmitOne(OpEqual, line);
        case BangEqual => EmitTwo(OpEqual, OpNot, line);
        case Greater => EmitOne(OpGreater, line);
        case LessEqual => EmitTwo(OpGreater, OpNot, line);
        case Less => EmitOne(OpLess, line);
        case GreaterEqual => EmitTwo(OpLess, OpNot, line);
        case _ => ok := false;
      }
    }

    /** `stmt.accept(this)` for every statement visitor; `false` where the visitor throws. */
    method VisitStmt(s: Stmt) returns (ok: bool)
      requires currentChunk != null
      modifies currentChunk
      ensures ok <==> EmitStmt(old(currentChunk.Data()), s).Ok?
      ensures ok ==> currentChunk.Data() == EmitStmt(old(currentChunk.Data()), s).value
      decreases s, 3
    {
      match s
      case Print(e) =>
        ok := VisitExpr(e);
        if ok {
          currentChunk.WriteOp(OpPrint, 0);
        }
      case Var(_, _, _) =>
        ok := VisitVar(s);
      case Function(_, _, _) =>
        ok := true;
      case Return(_, _) =>
        ok := true;
      case Break =>
        ok := true;
      case Switch(_, _, _) =>
        ok := true;
      case If(_, _, _) =>
        ok := VisitIf(s);
      case Block(statements) =>
        ok := VisitBlock(s);
      case Expression(e) =>
        ok := VisitExpr(e);
        if ok {
          currentChunk.WriteOp(OpPop, 0);
        }
      case While(_, _) =>
        ok := VisitWhile(s);
      case Input(name) =>
        VisitInput(name);
        ok := true;
    }

    /** `visitVarStmt`: the initialiser or `nil`, then the definition. */
    method VisitVar(s: Stmt) returns (ok: bool)
      requires currentChunk != null && s.Var?
      modifies currentChunk
      ensures ok <==> EmitStmt(old(currentChunk.Data()), s).Ok?
      ensures ok ==> currentChunk.Data() == EmitStmt(old(currentChunk.Data()), s).value
      decreases s, 2
    {
      if s.initializer.Some? {
        ok := VisitExpr(s.initializer.value);
        if !ok { return; }
      } else {
        currentChunk.WriteOp(OpNil, s.name.line);
        ok := true;
      }
      EmitNamed(OpDefineGlobal, s.name);
    }

    /** `visitInputStmt`: read a line, store it in the global, drop it from the stack. */
    method VisitInput(name: Token)
      requires currentChunk != null
      modifies currentChunk
      ensures currentChunk.Data() == EmitStmt(old(currentChunk.Data()), Input(name)).value
    {
      currentChunk.WriteOp(OpInput, name.line);
      EmitNamed(OpSetGlobal, name);
      currentChunk.WriteOp(OpPop, name.line);
    }

    /** `visitBlockStmt`: the statements in order. */
    method VisitBlock(s: Stmt) returns (ok: bool)
      requires currentChunk != null && s.Block?
      modifies currentChunk
      ensures ok <==> EmitStmts(old(currentChunk.Data()), s.statements).Ok?
      ensures ok ==> currentChunk.Data() == EmitStmts(old(currentChunk.Data()), s.statements).value
      decreases s, 2
    {
      var i := 0;
      while i < |s.statements|
        invariant 0 <= i <= |s.statements|
        invariant EmitStmts(old(currentChunk.Data()), s.statements) == EmitStmts(currentChunk.Data(), s.statements[i..])
      {
        ok := VisitStmt(s.statements[i]);
        if !ok {
          return;
        }
        assert s.statements[i..][1..] == s.statements[i + 1..];
        i := i + 1;
      }
      ok := true;
    }

    /** `visitIfStmt`. */
    method VisitIf(s: Stmt) returns (ok: bool)
      requires currentChunk != null && s.If?
      modifies currentChunk
      ensures ok <==> EmitIf(old(currentChunk.Data()), s).Ok?
      ensures ok ==> currentChunk.Data() == EmitIf(old(currentChunk.Data()), s).value
      decreases s, 2
    {
      ok := VisitExpr(s.condition);
      if !ok { return; }
      ghost var c1 := currentChunk.Data();
      var thenJump := EmitJump(OpJumpIfFalse, 0);
      ok := VisitStmt(s.thenBranch);
      if !ok { return; }
      ghost var c3 := currentChunk.Data();
      ExtendsTransitive(c1, BytecodeCompiler.EmitJump(c1, OpJumpIfFalse, 0).0, c3);
      ok := VisitIfTail(s, c1, thenJump);
    }

    /** The part of `visitIfStmt` after the then-branch. */
    method VisitIfTail(s: Stmt, ghost c1: ChunkData, thenJump: nat) returns (ok: bool)
      requires currentChunk != null && s.If?
      requires Extends(c1, currentChunk.Data()) && |c1.code| + 3 <= |currentChunk.code| && thenJump == |c1.code| + 1
      modifies currentChunk
      ensures ok <==> IfTail(c1, old(currentChunk.Data()), s).Ok?
      ensures ok ==> currentChunk.Data() == IfTail(c1, old(currentChunk.Data()), s).value
      decreases s, 1
    {
      var elseJump := EmitJump(OpJump, 0);
      ok := PatchJump(thenJump);
      if !ok { return; }
      if s.elseBranch.Some? {
        ok := VisitStmt(s.elseBranch.value);
        if !ok { return; }
      }
      ok := PatchJump(elseJump);
    }

    /** `visitWhileStmt`. */
    method VisitWhile(s: Stmt) returns (ok: bool)
      requires currentChunk != null && s.While?
      modifies currentChunk
      ensures ok <==> EmitWhile(old(currentChunk.Data()), s).Ok?
      ensures ok ==> currentChunk.Data() == EmitWhile(old(currentChunk.Data()), s).value
      decreases s, 2
    {
      var loopStart := |currentChunk.code|;
      ok := VisitExpr(s.condition);
      if !ok { return; }
      var exitJump := EmitJump(OpJumpIfFalse, 0);
      ok := VisitStmt(s.loopBody);
      if !ok { return; }
      ok := EmitLoop(loopStart, 0);
      if !ok { return; }
      ok := PatchJump(exitJump);
    }
  }
}

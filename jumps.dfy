/**
 * Where the compiler's jumps take the VM. The compiler writes forward jump
 * distances with `patchJump` and backward ones with `emitLoop`; the VM reads
 * them back with `readShort` after stepping over the opcode and adds or
 * subtracts them. These lemmas show that the two ends agree: every jump the
 * compiler emits for `if` and `while` moves `ip` exactly onto the intended
 * instruction.
 */
module JumpTargets {
  import opened Wrappers
  import opened Values
  import opened Ast
  import opened OpCodes
  import opened Chunks
  import opened BytecodeCompiler
  import opened VirtualMachine

  /** A patched forward jump whose opcode is at `at` lands at the end of the code as it was when patched. */
  lemma PatchedJumpLands(c: ChunkData, at: nat, c2: ChunkData)
    requires at + 3 <= |c.code| && PatchJump(c, at + 1) == Ok(c2)
    ensures at + 3 + JumpOperand(c2.code, at) == |c.code|
  {
  }

  /** The `OP_LOOP` that `emitLoop` writes at the end of `c` leads back to `loopStart`. */
  lemma EmittedLoopLands(c: ChunkData, loopStart: nat, c2: ChunkData)
    requires loopStart <= |c.code| && EmitLoop(c, loopStart, 0) == Ok(c2)
    ensures At(c2.code, |c.code|, OpLoop) && |c.code| + 2 < |c2.code|
    ensures |c.code| + 3 - JumpOperand(c2.code, |c.code|) == loopStart
  {
  }

  /**
   * The code length once the condition, its `OP_JUMP_IF_FALSE` and the
   * branch `b` are compiled from `c`: where the branch's code ends.
   */
  function BranchEnd(c: ChunkData, condition: Expr, b: Stmt): (r: Option<nat>)
    ensures r.Some? <==> EmitExpr(c, condition).Ok? && EmitStmt(EmitJump(EmitExpr(c, condition).value, OpJumpIfFalse, 0).0, b).Ok?
  {
    match EmitExpr(c, condition)
    case Err(_) => None
    case Ok(c1) =>
      match EmitStmt(EmitJump(c1, OpJumpIfFalse, 0).0, b)
      case Err(_) => None
      case Ok(c3) => Some(|c3.code|)
  }

  /** Where the then-branch of an `if` compiled from `c` ends. */
  function ThenEnd(c: ChunkData, s: Stmt): Option<nat>
    requires s.If?
  {
    BranchEnd(c, s.condition, s.thenBranch)
  }

  /** Where the body of a `while` compiled from `c` ends. */
  function BodyEnd(c: ChunkData, s: Stmt): Option<nat>
    requires s.While?
  {
    BranchEnd(c, s.condition, s.loopBody)
  }

  /** The condition and then-branch chunks of a successful `EmitIf`, and the tail it ends with. */
  lemma IfHead(c: ChunkData, s: Stmt) returns (c1: ChunkData, c3: ChunkData)
    requires s.If? && EmitIf(c, s).Ok?
    ensures EmitExpr(c, s.condition) == Ok(c1) && Extends(c, c1)
    ensures EmitStmt(EmitJump(c1, OpJumpIfFalse, 0).0, s.thenBranch) == Ok(c3)
    ensures Extends(EmitJump(c1, OpJumpIfFalse, 0).0, c3) && Extends(c1, c3) && |c1.code| + 3 <= |c3.code|
    ensures EmitIf(c, s) == IfTail(c1, c3, s)
  {
    c1 := EmitExpr(c, s.condition).value;
    c3 := EmitStmt(EmitJump(c1, OpJumpIfFalse, 0).0, s.thenBranch).value;
    ExtendsTransitive(c1, EmitJump(c1, OpJumpIfFalse, 0).0, c3);
  }

  /** The chunks a successful `IfTail` goes through: first jump patched, else-branch written, result. */
  lemma IfTailParts(c1: ChunkData, c3: ChunkData, s: Stmt) returns (c5: ChunkData, c6: ChunkData, c7: ChunkData)
    requires s.If? && Extends(c1, c3) && |c1.code| + 3 <= |c3.code| && IfTail(c1, c3, s).Ok?
    ensures PatchJump(EmitJump(c3, OpJump, 0).0, |c1.code| + 1) == Ok(c5)
    ensures EmitElse(c5, s) == Ok(c6) && Extends(c5, c6)
    ensures |c3.code| + 3 <= |c6.code| && PatchJump(c6, |c3.code| + 1) == Ok(c7)
    ensures IfTail(c1, c3, s) == Ok(c7)
  {
    c5 := PatchJump(EmitJump(c3, OpJump, 0).0, |c1.code| + 1).value;
    c6 := EmitElse(c5, s).value;
    c7 := IfTail(c1, c3, s).value;
  }

  /** Where the two jumps of an `if` sit in the finished chunk, and where they land. */
  lemma IfLayout(c1: ChunkData, c3: ChunkData, c5: ChunkData, c6: ChunkData, c7: ChunkData)
    requires Extends(EmitJump(c1, OpJumpIfFalse, 0).0, c3)
    requires PatchJump(EmitJump(c3, OpJump, 0).0, |c1.code| + 1) == Ok(c5)
    requires Extends(c5, c6)
    requires |c3.code| + 3 <= |c6.code| && PatchJump(c6, |c3.code| + 1) == Ok(c7)
    ensures |c1.code| + 3 <= |c3.code| && |c3.code| + 3 <= |c7.code|
    ensures At(c7.code, |c1.code|, OpJumpIfFalse) && |c1.code| + 3 + JumpOperand(c7.code, |c1.code|) == |c3.code| + 3
    ensures At(c7.code, |c3.code|, OpJump) && |c3.code| + 3 + JumpOperand(c7.code, |c3.code|) == |c7.code|
  {
    var c2 := EmitJump(c1, OpJumpIfFalse, 0).0;
    var c4 := EmitJump(c3, OpJump, 0).0;
    var jif, jmp := |c1.code|, |c3.code|;
    assert c2.code <= c3.code;
    assert c4.code[jif] == Ordinal(OpJumpIfFalse) && c4.code[jmp] == Ordinal(OpJump);
    assert c5.code[jif] == Ordinal(OpJumpIfFalse) && c5.code[jmp] == Ordinal(OpJump);
    assert c5.code <= c6.code;
    assert c6.code[jif] == c5.code[jif] && c6.code[jif + 1] == c5.code[jif + 1] && c6.code[jif + 2] == c5.code[jif + 2];
    assert c6.code[jmp] == c5.code[jmp];
    assert c7.code[jif] == c6.code[jif] && c7.code[jif + 1] == c6.code[jif + 1] && c7.code[jif + 2] == c6.code[jif + 2];
    assert c7.code[jmp] == c6.code[jmp];
    PatchedJumpLands(c4, jif, c5);
    assert JumpOperand(c7.code, jif) == JumpOperand(c5.code, jif);
    PatchedJumpLands(c6, jmp, c7);
  }

  /**
   * The layout of a compiled `if`: the condition's code, `OP_JUMP_IF_FALSE` at
   * `jif`, the then-branch, `OP_JUMP` at `jmp`, the else-branch (if any), and
   * the end. The conditional jump lands on the else-branch, the unconditional
   * one on the end.
   */
  lemma IfJumps(c: ChunkData, s: Stmt) returns (jif: nat, jmp: nat)
    requires s.If? && EmitIf(c, s).Ok?
    ensures var f := EmitIf(c, s).value.code;
            && EmitExpr(c, s.condition).Ok? && jif == |EmitExpr(c, s.condition).value.code|
            && ThenEnd(c, s).Some? && jmp == ThenEnd(c, s).value
            && |c.code| <= jif && jif + 3 <= jmp && jmp + 3 <= |f|
            && At(f, jif, OpJumpIfFalse) && jif + 3 + JumpOperand(f, jif) == jmp + 3
            && At(f, jmp, OpJump) && jmp + 3 + JumpOperand(f, jmp) == |f|
  {
    var c1, c3 := IfHead(c, s);
    var c5, c6, c7 := IfTailParts(c1, c3, s);
    IfLayout(c1, c3, c5, c6, c7);
    jif, jmp := |c1.code|, |c3.code|;
  }

  /** The intermediate chunks of a successful `EmitWhile`, in order. */
  lemma WhileParts(c: ChunkData, s: Stmt) returns (c1: ChunkData, c3: ChunkData, c4: ChunkData, c5: ChunkData)
    requires s.While? && EmitWhile(c, s).Ok?
    ensures EmitExpr(c, s.condition) == Ok(c1) && Extends(c, c1)
    ensures EmitStmt(EmitJump(c1, OpJumpIfFalse, 0).0, s.loopBody) == Ok(c3)
    ensures Extends(EmitJump(c1, OpJumpIfFalse, 0).0, c3)
    ensures |c.code| <= |c3.code| && EmitLoop(c3, |c.code|, 0) == Ok(c4)
    ensures |c1.code| + 3 <= |c4.code| && PatchJump(c4, |c1.code| + 1) == Ok(c5)
    ensures EmitWhile(c, s) == Ok(c5)
  {
    c1 := EmitExpr(c, s.condition).value;
    var c2 := EmitJump(c1, OpJumpIfFalse, 0).0;
    c3 := EmitStmt(c2, s.loopBody).value;
    c4 := EmitLoop(c3, |c.code|, 0).value;
    c5 := EmitWhile(c, s).value;
  }

  /** Where the two jumps of a `while` sit in the finished chunk, and where they land. */
  lemma WhileLayout(loopStart: nat, c1: ChunkData, c3: ChunkData, c4: ChunkData, c5: ChunkData)
    requires Extends(EmitJump(c1, OpJumpIfFalse, 0).0, c3)
    requires loopStart <= |c3.code| && EmitLoop(c3, loopStart, 0) == Ok(c4)
    requires |c1.code| + 3 <= |c4.code| && PatchJump(c4, |c1.code| + 1) == Ok(c5)
    ensures |c1.code| + 3 <= |c3.code| && |c3.code| + 3 == |c5.code|
    ensures At(c5.code, |c1.code|, OpJumpIfFalse) && |c1.code| + 3 + JumpOperand(c5.code, |c1.code|) == |c5.code|
    ensures At(c5.code, |c3.code|, OpLoop) && |c3.code| + 3 - JumpOperand(c5.code, |c3.code|) == loopStart
  {
    var c2 := EmitJump(c1, OpJumpIfFalse, 0).0;
    var jif, loopAt := |c1.code|, |c3.code|;
    assert c2.code <= c3.code;
    assert c4.code[..|c3.code|] == c3.code;
    assert c4.code[jif] == Ordinal(OpJumpIfFalse);
    EmittedLoopLands(c3, loopStart, c4);
    assert c5.code[loopAt] == c4.code[loopAt] && c5.code[loopAt + 1] == c4.code[loopAt + 1] && c5.code[loopAt + 2] == c4.code[loopAt + 2];
    assert JumpOperand(c5.code, loopAt) == JumpOperand(c4.code, loopAt);
    PatchedJumpLands(c4, jif, c5);
  }

  /**
   * The layout of a compiled `while`: `loopStart`, the condition's code,
   * `OP_JUMP_IF_FALSE` at `jif`, the body, and `OP_LOOP` as the last
   * instruction. The conditional jump leaves the loop; the loop instruction
   * goes back to the condition.
   */
  lemma WhileJumps(c: ChunkData, s: Stmt) returns (jif: nat, loopAt: nat)
    requires s.While? && EmitWhile(c, s).Ok?
    ensures var f := EmitWhile(c, s).value.code;
            && EmitExpr(c, s.condition).Ok? && jif == |EmitExpr(c, s.condition).value.code|
            && BodyEnd(c, s).Some? && loopAt == BodyEnd(c, s).value
            && |c.code| <= jif && jif + 3 <= loopAt && loopAt + 3 == |f|
            && At(f, jif, OpJumpIfFalse) && jif + 3 + JumpOperand(f, jif) == |f|
            && At(f, loopAt, OpLoop) && loopAt + 3 - JumpOperand(f, loopAt) == |c.code|
  {
    var c1, c3, c4, c5 := WhileParts(c, s);
    WhileLayout(|c.code|, c1, c3, c4, c5);
    jif, loopAt := |c1.code|, |c3.code|;
  }

  /** `visitIfStmt` and `visitWhileStmt` are what the statement visitor runs for `if` and `while`. */
  lemma StmtDispatch(c: ChunkData, s: Stmt)
    requires s.If? || s.While?
    ensures s.If? ==> EmitStmt(c, s) == EmitIf(c, s)
    ensures s.While? ==> EmitStmt(c, s) == EmitWhile(c, s)
  {
  }

  /** The VM's steps at the two jumps of an `if` laid out in `f`, within any code that starts with `f`. */
  lemma IfSteps(f: seq<int>, code: seq<int>, jif: nat, jmp: nat, constants: seq<Value>, m: Machine)
    requires f <= code && jif + 3 <= jmp && jmp + 3 <= |f|
    requires At(f, jif, OpJumpIfFalse) && jif + 3 + JumpOperand(f, jif) == jmp + 3
    requires At(f, jmp, OpJump) && jmp + 3 + JumpOperand(f, jmp) == |f|
    ensures m.ip == jif && m.stack != [] && !IsTruthy(m.stack[|m.stack| - 1]) ==>
              Step(code, constants, m) == Next(m.(ip := jmp + 3))
    ensures m.ip == jif && m.stack != [] && IsTruthy(m.stack[|m.stack| - 1]) ==>
              Step(code, constants, m) == Next(m.(ip := jif + 3))
    ensures m.ip == jmp ==> Step(code, constants, m) == Next(m.(ip := |f|))
  {
    assert code[..|f|] == f;
    assert At(code, jif, OpJumpIfFalse) && JumpOperand(code, jif) == JumpOperand(f, jif) by {
      assert code[jif] == f[jif] && code[jif + 1] == f[jif + 1] && code[jif + 2] == f[jif + 2];
    }
    assert At(code, jmp, OpJump) && JumpOperand(code, jmp) == JumpOperand(f, jmp) by {
      assert code[jmp] == f[jmp] && code[jmp + 1] == f[jmp + 1] && code[jmp + 2] == f[jmp + 2];
    }
    if m.ip == jif && m.stack != [] {
      JumpIfFalseStep(code, constants, m);
    }
    if m.ip == jmp {
      JumpStep(code, constants, m);
    }
  }

  /** The VM's steps at the two jumps of a `while` laid out in `f`, within any code that starts with `f`. */
  lemma WhileSteps(f: seq<int>, code: seq<int>, loopStart: nat, jif: nat, loopAt: nat, constants: seq<Value>, m: Machine)
    requires f <= code && jif + 3 <= loopAt && loopAt + 3 == |f|
    requires At(f, jif, OpJumpIfFalse) && jif + 3 + JumpOperand(f, jif) == |f|
    requires At(f, loopAt, OpLoop) && loopAt + 3 - JumpOperand(f, loopAt) == loopStart
    ensures m.ip == jif && m.stack != [] && !IsTruthy(m.stack[|m.stack| - 1]) ==>
              Step(code, constants, m) == Next(m.(ip := |f|))
    ensures m.ip == jif && m.stack != [] && IsTruthy(m.stack[|m.stack| - 1]) ==>
              Step(code, constants, m) == Next(m.(ip := jif + 3))
    ensures m.ip == loopAt ==> Step(code, constants, m) == Next(m.(ip := loopStart))
  {
    assert code[..|f|] == f;
    assert At(code, jif, OpJumpIfFalse) && JumpOperand(code, jif) == JumpOperand(f, jif) by {
      assert code[jif] == f[jif] && code[jif + 1] == f[jif + 1] && code[jif + 2] == f[jif + 2];
    }
    assert At(code, loopAt, OpLoop) && JumpOperand(code, loopAt) == JumpOperand(f, loopAt) by {
      assert code[loopAt] == f[loopAt] && code[loopAt + 1] == f[loopAt + 1] && code[loopAt + 2] == f[loopAt + 2];
    }
    if m.ip == jif && m.stack != [] {
      JumpIfFalseStep(code, constants, m);
    }
    if m.ip == loopAt {
      LoopStep(code, constants, m);
    }
  }

  /**
   * The `if` layout seen by the VM: with a falsy condition on the stack the
   * conditional jump moves `ip` to the else-branch, with a truthy one it falls
   * through into the then-branch, and the jump at the end of the then-branch
   * moves `ip` to the end of the statement. This holds in any code that
   * continues after the statement, such as the rest of the program and its
   * final `OP_RETURN`.
   */
  lemma IfControlFlow(c: ChunkData, s: Stmt, code: seq<int>, constants: seq<Value>, m: Machine) returns (jif: nat, jmp: nat)
    requires s.If? && EmitStmt(c, s).Ok? && EmitStmt(c, s).value.code <= code
    ensures var f := EmitStmt(c, s).value.code;
            && EmitExpr(c, s.condition).Ok? && jif == |EmitExpr(c, s.condition).value.code|
            && ThenEnd(c, s).Some? && jmp == ThenEnd(c, s).value
            && |c.code| <= jif && jif + 3 <= jmp && jmp + 3 <= |f|
            && (m.ip == jif && m.stack != [] && !IsTruthy(m.stack[|m.stack| - 1]) ==>
                  Step(code, constants, m) == Next(m.(ip := jmp + 3)))
            && (m.ip == jif && m.stack != [] && IsTruthy(m.stack[|m.stack| - 1]) ==>
                  Step(code, constants, m) == Next(m.(ip := jif + 3)))
            && (m.ip == jmp ==> Step(code, constants, m) == Next(m.(ip := |f|)))
  {
    StmtDispatch(c, s);
    var f := EmitIf(c, s).value.code;
    jif, jmp := IfJumps(c, s);
    IfSteps(f, code, jif, jmp, constants, m);
  }

  /**
   * The `while` layout seen by the VM: a falsy condition jumps past the loop,
   * a truthy one falls into the body, and the final `OP_LOOP` moves `ip` back
   * to the first instruction of the condition. This holds in any code that
   * continues after the statement.
   */
  lemma WhileControlFlow(c: ChunkData, s: Stmt, code: seq<int>, constants: seq<Value>, m: Machine) returns (jif: nat, loopAt: nat)
    requires s.While? && EmitStmt(c, s).Ok? && EmitStmt(c, s).value.code <= code
    ensures var f := EmitStmt(c, s).value.code;
            && EmitExpr(c, s.condition).Ok? && jif == |EmitExpr(c, s.condition).value.code|
            && BodyEnd(c, s).Some? && loopAt == BodyEnd(c, s).value
            && |c.code| <= jif && jif + 3 <= loopAt && loopAt + 3 == |f|
            && (m.ip == jif && m.stack != [] && !IsTruthy(m.stack[|m.stack| - 1]) ==>
                  Step(code, constants, m) == Next(m.(ip := |f|)))
            && (m.ip == jif && m.stack != [] && IsTruthy(m.stack[|m.stack| - 1]) ==>
                  Step(code, constants, m) == Next(m.(ip := jif + 3)))
            && (m.ip == loopAt ==> Step(code, constants, m) == Next(m.(ip := |c.code|)))
  {
    StmtDispatch(c, s);
    var f := EmitWhile(c, s).value.code;
    jif, loopAt := WhileJumps(c, s);
    WhileSteps(f, code, |c.code|, jif, loopAt, constants, m);
  }
}

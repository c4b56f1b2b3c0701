/**
 * What the VM does with the straight-line code the compiler writes for
 * increments, decrements and variable declarations: the compiler's layout of
 * names and constants and the VM's reading of them agree.
 */
module CompiledSteps {
  import opened Wrappers
  import opened JavaInt
  import opened Values
  import opened Tokens
  import opened Ast
  import opened OpCodes
  import opened Chunks
  import opened BytecodeCompiler
  import opened VirtualMachine

  /** The emitted chunk is a prefix of what the VM runs: later statements may follow. */
  predicate Runs(c: ChunkData, code: seq<int>, constants: seq<Value>)
  {
    c.code <= code && c.constants <= constants
  }

  /**
   * `x++` and `x--` on a global holding a 32-bit int: four instructions leave
   * the global and the top of the stack holding the wrapped sum or difference,
   * and `ip` just after the emitted code.
   */
  lemma StepUpdatesGlobal(c: ChunkData, name: Token, arith: OpCode, code: seq<int>,
                                             constants: seq<Value>, m: Machine, x: int, fuel: nat)
    requires arith in {OpAdd, OpSubtract}
    requires Runs(EmitStep(c, name, arith), code, constants)
    requires m.ip == |c.code| && name.lexeme in m.globals && m.globals[name.lexeme] == Int(x) && InRange(x)
    ensures var v := Int(Wrap32(if arith == OpAdd then x + 1 else x - 1));
            Run(code, constants, m, fuel + 4) ==
            Run(code, constants,
                m.(ip := |EmitStep(c, name, arith).code|, stack := m.stack + [v],
                   globals := m.globals[name.lexeme := v]), fuel)
  {
    StepLayout(c, name, arith, code, constants);
    StepRuns(code, constants, |c.code|, name.lexeme, arith, m, x, fuel);
  }

  /** The four instructions of `x++` or `x--` at `p`, run on a global holding an int. */
  lemma StepRuns(code: seq<int>, constants: seq<Value>, p: int, name: string, arith: OpCode,
                 m: Machine, x: int, fuel: nat)
    requires arith in {OpAdd, OpSubtract}
    requires At(code, p, OpGetGlobal) && NameOperand(code, constants, p, name)
    requires At(code, p + 2, OpConstant) && p + 3 < |code| && 0 <= code[p + 3] < |constants|
    requires constants[code[p + 3]] == Int(1)
    requires At(code, p + 4, arith)
    requires At(code, p + 5, OpSetGlobal) && NameOperand(code, constants, p + 5, name)
    requires m.ip == p && name in m.globals && m.globals[name] == Int(x) && InRange(x)
    ensures var v := Int(Wrap32(if arith == OpAdd then x + 1 else x - 1));
            Run(code, constants, m, fuel + 4) ==
            Run(code, constants, m.(ip := p + 7, stack := m.stack + [v], globals := m.globals[name := v]), fuel)
  {
    var v := Int(Wrap32(if arith == OpAdd then x + 1 else x - 1));
    GetGlobalStep(code, constants, m, name);
    var m1 := m.(ip := p + 2).Push(Int(x));
    Advance(code, constants, m, m1, fuel + 3);
    ConstantStep(code, constants, m1);
    var m2 := m1.(ip := p + 4).Push(Int(1));
    Advance(code, constants, m1, m2, fuel + 2);
    IntArithStep(code, constants, m2, x, 1, arith);
    var m3 := m.(ip := p + 5).Push(v);
    assert DropTwo(m2).(ip := p + 5).Push(v) == m3;
    Advance(code, constants, m2, m3, fuel + 1);
    SetGlobalStep(code, constants, m3, name);
    Advance(code, constants, m3, m3.(ip := p + 7, globals := m.globals[name := v]), fuel);
  }

  /** Where the names and constants of an emitted `x++` or `x--` sit. */
  lemma StepLayout(c: ChunkData, name: Token, arith: OpCode, code: seq<int>, constants: seq<Value>)
    requires Runs(EmitStep(c, name, arith), code, constants)
    ensures var p := |c.code|; var k := |c.constants|;
            && |EmitStep(c, name, arith).code| == p + 7
            && At(code, p, OpGetGlobal) && NameOperand(code, constants, p, name.lexeme)
            && At(code, p + 2, OpConstant) && p + 3 < |code| && 0 <= code[p + 3] < |constants|
            && constants[code[p + 3]] == Int(1)
            && At(code, p + 4, arith)
            && At(code, p + 5, OpSetGlobal) && NameOperand(code, constants, p + 5, name.lexeme)
  {
    var f := EmitStep(c, name, arith);
    var p := |c.code|;
    assert forall i :: p <= i < |f.code| ==> code[i] == f.code[i];
    assert constants[|c.constants|] == f.constants[|c.constants|];
    assert constants[|c.constants| + 1] == f.constants[|c.constants| + 1];
  }

  /** A step that carries on hands the rest of the run to the next state. */
  lemma Advance(code: seq<int>, constants: seq<Value>, m: Machine, m': Machine, fuel: nat)
    requires Step(code, constants, m) == Next(m')
    ensures Run(code, constants, m, fuel + 1) == Run(code, constants, m', fuel)
  {
    RunUnfold(code, constants, m, fuel + 1);
  }

  /**
   * `var x = <literal>;` for a literal kept in the constant pool: two
   * instructions bind the global to the literal, whether or not it was bound
   * before, and leave the stack as it was.
   */
  lemma VarDefinesGlobal(c: ChunkData, typeToken: Option<Token>, name: Token, v: Value,
                                            code: seq<int>, constants: seq<Value>, m: Machine, fuel: nat)
    requires !v.Nil? && !v.Bool?
    requires EmitStmt(c, Var(typeToken, name, Some(Literal(v)))).Ok?
    requires Runs(EmitStmt(c, Var(typeToken, name, Some(Literal(v)))).value, code, constants)
    requires m.ip == |c.code|
    ensures Run(code, constants, m, fuel + 2) ==
            Run(code, constants,
                m.(ip := |EmitStmt(c, Var(typeToken, name, Some(Literal(v)))).value.code|,
                   globals := m.globals[name.lexeme := v]), fuel)
  {
    VarLayout(c, typeToken, name, v, code, constants);
    DefineRuns(code, constants, |c.code|, name.lexeme, v, m, fuel);
  }

  /** Where the literal and the name of an emitted `var x = <literal>;` sit. */
  lemma VarLayout(c: ChunkData, typeToken: Option<Token>, name: Token, v: Value,
                  code: seq<int>, constants: seq<Value>)
    requires !v.Nil? && !v.Bool?
    requires EmitStmt(c, Var(typeToken, name, Some(Literal(v)))).Ok?
    requires Runs(EmitStmt(c, Var(typeToken, name, Some(Literal(v)))).value, code, constants)
    ensures var p := |c.code|;
            && |EmitStmt(c, Var(typeToken, name, Some(Literal(v)))).value.code| == p + 4
            && At(code, p, OpConstant) && p + 1 < |code| && 0 <= code[p + 1] < |constants|
            && constants[code[p + 1]] == v
            && At(code, p + 2, OpDefineGlobal) && NameOperand(code, constants, p + 2, name.lexeme)
  {
    var f := EmitStmt(c, Var(typeToken, name, Some(Literal(v)))).value;
    var c1 := EmitLiteral(c, v);
    assert f == EmitNamed(c1, OpDefineGlobal, name).0;
    var p := |c.code|;
    assert forall i :: p <= i < |f.code| ==> code[i] == f.code[i];
    assert constants[|c.constants|] == f.constants[|c.constants|];
    assert constants[|c.constants| + 1] == f.constants[|c.constants| + 1];
  }

  /** The two instructions of a declaration at `p`: push the constant, bind the name to it. */
  lemma DefineRuns(code: seq<int>, constants: seq<Value>, p: int, name: string, v: Value, m: Machine, fuel: nat)
    requires At(code, p, OpConstant) && p + 1 < |code| && 0 <= code[p + 1] < |constants|
    requires constants[code[p + 1]] == v
    requires At(code, p + 2, OpDefineGlobal) && NameOperand(code, constants, p + 2, name)
    requires m.ip == p
    ensures Run(code, constants, m, fuel + 2) ==
            Run(code, constants, m.(ip := p + 4, globals := m.globals[name := v]), fuel)
  {
    ConstantStep(code, constants, m);
    var m1 := m.(ip := p + 2).Push(v);
    Advance(code, constants, m, m1, fuel + 1);
    DefineGlobalStep(code, constants, m1, name);
    assert m1.stack[..|m1.stack| - 1] == m.stack;
    Advance(code, constants, m1, m.(ip := p + 4, globals := m.globals[name := v]), fuel);
  }
}

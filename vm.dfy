/**
 * The bytecode virtual machine: a fetch-decode-execute loop over an operand
 * stack, a map of global variables and an instruction pointer.
 *
 * Console output is the sequence of strings printed to standard output and
 * console input the sequence of lines still to be read. Diagnostics written to
 * standard error are not part of the state. A Java exception that escapes
 * `interpret` becomes the `Crashed` outcome.
 */
module VirtualMachine {
  import opened Wrappers
  import opened JavaInt
  import opened JavaDouble
  import opened Values
  import opened OpCodes
  import opened Chunks

  datatype Machine = Machine(
    ip: int,
    stack: seq<Value>,
    globals: map<string, Value>,
    output: seq<string>,
    input: seq<string>)
  {
    function Push(v: Value): (r: Machine)
      ensures r.stack == stack + [v] && |r.stack| == |stack| + 1
      ensures r.ip == ip && r.globals == globals && r.output == output && r.input == input
    {
      this.(stack := stack + [v])
    }
  }

  /** How a call to `interpret` ends (`OutOfFuel` when the step bound runs out). */
  datatype Outcome =
    | Returned(ok: bool)
    | Crashed(reason: string)
    | Unmodelled(feature: string)
    | OutOfFuel

  datatype StepResult = Next(next: Machine) | Stop(last: Machine, outcome: Outcome)

  const ReturnBanner: string := "VM: Execução terminada.\n"
  const InputPrompt: string := "> "

  /** `code.get(ip++)`: the byte at `ip`, if any; `ip` moves on either way. */
  function Fetch(code: seq<int>, m: Machine): (r: (Option<int>, Machine))
    ensures r.1 == m.(ip := m.ip + 1)
    ensures r.0.Some? <==> 0 <= m.ip < |code|
    ensures r.0.Some? ==> r.0.value == code[m.ip]
  {
    (if 0 <= m.ip < |code| then Some(code[m.ip]) else None, m.(ip := m.ip + 1))
  }

  /** `stack.pop()`; `None` is the `EmptyStackException`. */
  function PopSpec(m: Machine): (r: (Option<Value>, Machine))
    ensures m.stack == [] ==> r == (None, m)
    ensures m.stack != [] ==> r.0 == Some(m.stack[|m.stack| - 1]) && r.1.Push(r.0.value) == m
  {
    if m.stack == [] then (None, m)
    else (Some(m.stack[|m.stack| - 1]), m.(stack := m.stack[..|m.stack| - 1]))
  }

  /** `stack.peek()`. */
  function Peek(m: Machine): Option<Value>
  {
    if m.stack == [] then None else Some(m.stack[|m.stack| - 1])
  }

  /** `readShort`: two bytes, each masked to 8 bits, high byte first. */
  function ReadShortSpec(code: seq<int>, m: Machine): (r: (Option<int>, Machine))
    ensures r.1 == m.(ip := m.ip + 2)
    ensures r.0.Some? <==> 0 <= m.ip && m.ip + 1 < |code|
    ensures r.0.Some? ==> 0 <= r.0.value < 0x1_0000
  {
    var (high, m1) := Fetch(code, m);
    var (low, m2) := Fetch(code, m1);
    if high.None? || low.None? then (None, m2)
    else (Some(BigEndian(high.value % 256, low.value % 256)), m2)
  }

  /** `(high << 8) | low` for two bytes. */
  function BigEndian(high: int, low: int): (r: int)
    requires 0 <= high < 256 && 0 <= low < 256
    ensures 0 <= r < 0x1_0000
    ensures r / 256 == high && r % 256 == low
  {
    high * 256 + low
  }

  /** The operator string `binaryOp` is called with. */
  datatype BinaryKind = Add | Sub | Mul | Div | Gt | Lt

  /** The arithmetic of two Java ints; `None` is the `ArithmeticException` of `/ 0`. */
  function IntArith(kind: BinaryKind, x: int, y: int): (r: Option<Value>)
    requires InRange(x) && InRange(y)
    ensures r.None? <==> kind == Div && y == 0
    ensures kind == Add ==> r == Some(Int(Wrap32(x + y)))
    ensures kind == Sub ==> r == Some(Int(Wrap32(x - y)))
    ensures kind == Mul ==> r == Some(Int(Wrap32(x * y)))
    ensures kind == Div && y != 0 ==> r == Some(Int(Wrap32(TruncDiv(x, y))))
    ensures kind == Gt ==> r == Some(Bool(x > y))
    ensures kind == Lt ==> r == Some(Bool(x < y))
    ensures r.Some? && r.value.Int? ==> InRange(r.value.i)
  {
    match kind
    case Add => Some(Int(Wrap32(x + y)))
    case Sub => Some(Int(Wrap32(x - y)))
    case Mul => Some(Int(Wrap32(x * y)))
    case Div => if y == 0 then None else Some(Int(Wrap32(TruncDiv(x, y))))
    case Gt => Some(Bool(x > y))
    case Lt => Some(Bool(x < y))
  }

  /**
   * `binaryOp`: pop `b`, pop `a`; `+` with a string operand concatenates the
   * stringified operands; a non-number operand pushes `null` and carries on.
   */
  function BinaryOpSpec(kind: BinaryKind, m: Machine): StepResult
  {
    var (b, m1) := PopSpec(m);
    if b.None? then Stop(m1, Crashed("EmptyStackException"))
    else
      var (a, m2) := PopSpec(m1);
      if a.None? then Stop(m2, Crashed("EmptyStackException"))
      else BinaryValues(kind, a.value, b.value, m2)
  }

  function BinaryValues(kind: BinaryKind, a: Value, b: Value, m: Machine): (r: StepResult)
    ensures kind == Add && a.Str? && b.Str? ==> r == Next(m.Push(Str(a.s + b.s)))
    ensures !(kind == Add && (a.Str? || b.Str?)) && !(a.IsNumber() && b.IsNumber()) ==> r == Next(m.Push(Nil))
  {
    if kind == Add && (a.Str? || b.Str?) then
      match (Stringify(a), Stringify(b))
      case (Some(sa), Some(sb)) => Next(m.Push(Str(sa + sb)))
      case _ => Stop(m, Unmodelled("toString of a double or function"))
    else if !a.IsNumber() || !b.IsNumber() then Next(m.Push(Nil))
    else if a.Float? || b.Float? then Stop(m, Unmodelled("double arithmetic"))
    else if !InRange(a.i) || !InRange(b.i) then Stop(m, Unmodelled("int outside 32 bits"))
    else
      match IntArith(kind, a.i, b.i)
      case None => Stop(m, Crashed("ArithmeticException"))
      case Some(v) => Next(m.Push(v))
  }

  /** The outcome of reading a global's name operand. */
  datatype NameRead = Name(name: string, after: Machine) | NameFailed(result: StepResult)

  /** Operand byte, constant pool entry, `(String)` cast: the common prefix of the global opcodes. */
  function ReadName(code: seq<int>, constants: seq<Value>, m: Machine): NameRead
  {
    var (k, m1) := Fetch(code, m);
    if k.None? || !(0 <= k.value < |constants|) then NameFailed(Stop(m1, Crashed("IndexOutOfBoundsException")))
    else match constants[k.value]
      case Str(s) => Name(s, m1)
      case Nil => NameFailed(Stop(m1, Unmodelled("null variable name")))
      case _ => NameFailed(Stop(m1, Crashed("ClassCastException")))
  }

  /** One turn of the `interpret` loop, starting at `m.ip`. */
  function Step(code: seq<int>, constants: seq<Value>, m: Machine): StepResult
  {
    var (b, m1) := Fetch(code, m);
    if b.None? then Stop(m1, Returned(true))
    else match Decode(b.value)
      case None => Stop(m1, Crashed("ArrayIndexOutOfBoundsException"))
      case Some(op) => Execute(code, constants, op, m1)
  }

  /** The `switch` on the decoded opcode, with `ip` already past it. */
  function Execute(code: seq<int>, constants: seq<Value>, op: OpCode, m: Machine): StepResult
  {
    match op
    case OpReturn => Stop(m.(output := m.output + [ReturnBanner]), Returned(true))
    case OpConstant =>
      var (k, m1) := Fetch(code, m);
      if k.None? || !(0 <= k.value < |constants|) then Stop(m1, Crashed("IndexOutOfBoundsException"))
      else Next(m1.Push(constants[k.value]))
    case OpPop =>
      var (v, m1) := PopSpec(m);
      if v.None? then Stop(m1, Crashed("EmptyStackException")) else Next(m1)
    case OpNil => Next(m.Push(Nil))
    case OpTrue => Next(m.Push(Bool(true)))
    case OpFalse => Next(m.Push(Bool(false)))
    case OpNegate =>
      var (v, m1) := PopSpec(m);
      if v.None? then Stop(m1, Crashed("EmptyStackException"))
      else NegateValue(v.value, m1)
    case OpAdd => BinaryOpSpec(Add, m)
    case OpSubtract => BinaryOpSpec(Sub, m)
    case OpMultiply => BinaryOpSpec(Mul, m)
    case OpDivide => BinaryOpSpec(Div, m)
    case OpGreater => BinaryOpSpec(Gt, m)
    case OpLess => BinaryOpSpec(Lt, m)
    case OpEqual =>
      var (b, m1) := PopSpec(m);
      if b.None? then Stop(m1, Crashed("EmptyStackException"))
      else
        var (a, m2) := PopSpec(m1);
        if a.None? then Stop(m2, Crashed("EmptyStackException"))
        else if IsEqual(a.value, b.value).None? then Stop(m2, Unmodelled("double equality"))
        else Next(m2.Push(Bool(IsEqual(a.value, b.value).value)))
    case OpNot =>
      var (v, m1) := PopSpec(m);
      if v.None? then Stop(m1, Crashed("EmptyStackException"))
      else Next(m1.Push(Bool(!IsTruthy(v.value))))
    case OpDefineGlobal =>
      (match ReadName(code, constants, m)
       case NameFailed(r) => r
       case Name(name, m1) =>
         var (v, m2) := PopSpec(m1);
         if v.None? then Stop(m2, Crashed("EmptyStackException"))
         else Next(m2.(globals := m2.globals[name := v.value])))
    case OpGetGlobal =>
      (match ReadName(code, constants, m)
       case NameFailed(r) => r
       case Name(name, m1) =>
         if name !in m1.globals then Stop(m1, Returned(false))
         else Next(m1.Push(m1.globals[name])))
    case OpSetGlobal =>
      (match ReadName(code, constants, m)
       case NameFailed(r) => r
       case Name(name, m1) =>
         if name !in m1.globals then Stop(m1, Returned(false))
         else if Peek(m1).None? then Stop(m1, Crashed("EmptyStackException"))
         else Next(m1.(globals := m1.globals[name := Peek(m1).value])))
    case OpGetLocal => Stop(m, Returned(false))
    case OpSetLocal => Stop(m, Returned(false))
    case OpJump =>
      var (offset, m1) := ReadShortSpec(code, m);
      if offset.None? then Stop(m1, Crashed("IndexOutOfBoundsException"))
      else Next(m1.(ip := m1.ip + offset.value))
    case OpJumpIfFalse =>
      var (offset, m1) := ReadShortSpec(code, m);
      if offset.None? then Stop(m1, Crashed("IndexOutOfBoundsException"))
      else if Peek(m1).None? then Stop(m1, Crashed("EmptyStackException"))
      else if IsTruthy(Peek(m1).value) then Next(m1)
      else Next(m1.(ip := m1.ip + offset.value))
    case OpLoop =>
      var (offset, m1) := ReadShortSpec(code, m);
      if offset.None? then Stop(m1, Crashed("IndexOutOfBoundsException"))
      else Next(m1.(ip := m1.ip - offset.value))
    case OpPrint =>
      var (v, m1) := PopSpec(m);
      if v.None? then Stop(m1, Crashed("EmptyStackException"))
      else if Stringify(v.value).None? then Stop(m1, Unmodelled("toString of a double or function"))
      else Next(m1.(output := m1.output + [Stringify(v.value).value + "\n"]))
    case OpInput =>
      var m1 := m.(output := m.output + [InputPrompt]);
      if m1.input == [] then Stop(m1, Crashed("NoSuchElementException"))
      else
        var m2 := m1.(input := m1.input[1..]);
        if InputValue(m1.input[0]).None? then Stop(m2, Unmodelled("double input"))
        else Next(m2.Push(InputValue(m1.input[0]).value))
  }

  /** `OP_NEGATE` after the pop: a non-number is dropped and nothing is pushed. */
  function NegateValue(v: Value, m: Machine): (r: StepResult)
    ensures v.Int? && InRange(v.i) ==> r == Next(m.Push(Int(Wrap32(-v.i))))
    ensures !v.IsNumber() ==> r == Next(m)
  {
    match v
    case Float(_) => Stop(m, Unmodelled("double arithmetic"))
    case Int(i) => if InRange(i) then Next(m.Push(Int(Wrap32(-i)))) else Stop(m, Unmodelled("int outside 32 bits"))
    case _ => Next(m)
  }

  /** One turn of `Run`: carry on from the next state, or stop where the step stopped. */
  lemma RunUnfold(code: seq<int>, constants: seq<Value>, m: Machine, fuel: nat)
    requires fuel > 0
    ensures Step(code, constants, m).Next? ==>
              Run(code, constants, m, fuel) == Run(code, constants, Step(code, constants, m).next, fuel - 1)
    ensures Step(code, constants, m).Stop? ==>
              Run(code, constants, m, fuel) == (Step(code, constants, m).last, Step(code, constants, m).outcome)
  {
  }

  /** At most `fuel` turns of the loop; `OutOfFuel` if it has not stopped by then. */
  function Run(code: seq<int>, constants: seq<Value>, m: Machine, fuel: nat): (r: (Machine, Outcome))
    decreases fuel, 1
  {
    if fuel == 0 then (m, OutOfFuel) else After(code, constants, m, fuel)
  }

  /** One instruction from `m`, then the rest of the run on what is left of `fuel`. */
  function After(code: seq<int>, constants: seq<Value>, m: Machine, fuel: nat): (r: (Machine, Outcome))
    requires fuel > 0
    decreases fuel, 0
  {
    match Step(code, constants, m)
    case Next(m1) => Run(code, constants, m1, fuel - 1)
    case Stop(m1, o) => (m1, o)
  }

  // ---------------------------------------------------------------------
  // What single instructions do

  /** The instruction at `p` is `op`. */
  predicate At(code: seq<int>, p: int, op: OpCode)
  {
    0 <= p < |code| && code[p] == Ordinal(op)
  }

  /** The 16-bit operand of the jump whose opcode is at `p`, as `readShort` assembles it. */
  function JumpOperand(code: seq<int>, p: int): (r: int)
    requires 0 <= p && p + 2 < |code|
    ensures 0 <= r < 0x1_0000
  {
    BigEndian(code[p + 1] % 256, code[p + 2] % 256)
  }

  /** Running off the end of the code, or `OP_RETURN`, ends `interpret` with `true`. */
  lemma EndOfCodeReturns(code: seq<int>, constants: seq<Value>, m: Machine)
    requires m.ip == |code| || At(code, m.ip, OpReturn)
    ensures Step(code, constants, m).Stop? && Step(code, constants, m).outcome == Returned(true)
  {
    if m.ip < |code| {
      DecodeOrdinal(OpReturn);
    }
  }

  /** `OP_JUMP` at `p` moves `ip` to `p + 3` plus its operand; nothing else changes. */
  lemma JumpStep(code: seq<int>, constants: seq<Value>, m: Machine)
    requires At(code, m.ip, OpJump) && m.ip + 2 < |code|
    ensures Step(code, constants, m) == Next(m.(ip := m.ip + 3 + JumpOperand(code, m.ip)))
  {
    DecodeOrdinal(OpJump);
  }

  /**
   * `OP_JUMP_IF_FALSE` at `p` leaves the stack as it is and moves `ip` to
   * `p + 3` plus its operand exactly when the top of the stack is falsy.
   */
  lemma JumpIfFalseStep(code: seq<int>, constants: seq<Value>, m: Machine)
    requires At(code, m.ip, OpJumpIfFalse) && m.ip + 2 < |code| && m.stack != []
    ensures IsTruthy(m.stack[|m.stack| - 1]) ==> Step(code, constants, m) == Next(m.(ip := m.ip + 3))
    ensures !IsTruthy(m.stack[|m.stack| - 1]) ==>
              Step(code, constants, m) == Next(m.(ip := m.ip + 3 + JumpOperand(code, m.ip)))
  {
    DecodeOrdinal(OpJumpIfFalse);
  }

  /** `OP_LOOP` at `p` moves `ip` to `p + 3` minus its operand. */
  lemma LoopStep(code: seq<int>, constants: seq<Value>, m: Machine)
    requires At(code, m.ip, OpLoop) && m.ip + 2 < |code|
    ensures Step(code, constants, m) == Next(m.(ip := m.ip + 3 - JumpOperand(code, m.ip)))
  {
    DecodeOrdinal(OpLoop);
  }

  /**
   * The VM consumes exactly the operand bytes `Width` gives: after a
   * continuing step, `ip` is just past the instruction's operands, plus or
   * minus the operand for the jumps, and the operands lay inside the code.
   */
  lemma StepWidth(code: seq<int>, constants: seq<Value>, m: Machine, op: OpCode)
    requires At(code, m.ip, op) && Step(code, constants, m).Next?
    ensures var end := m.ip + 1 + Width(op);
            var ip' := Step(code, constants, m).next.ip;
            && end <= |code|
            && (op !in {OpJump, OpJumpIfFalse, OpLoop} ==> ip' == end)
            && (op == OpJump ==> ip' == end + JumpOperand(code, m.ip))
            && (op == OpJumpIfFalse ==> ip' == end || ip' == end + JumpOperand(code, m.ip))
            && (op == OpLoop ==> ip' == end - JumpOperand(code, m.ip))
  {
    StepExecutes(code, constants, m, op);
    ExecuteWidth(code, constants, op, m.(ip := m.ip + 1));
  }

  /** At an opcode's byte, a turn of the loop is that opcode's `case` with `ip` past it. */
  lemma StepExecutes(code: seq<int>, constants: seq<Value>, m: Machine, op: OpCode)
    requires At(code, m.ip, op)
    ensures Step(code, constants, m) == Execute(code, constants, op, m.(ip := m.ip + 1))
  {
    DecodeOrdinal(op);
    assert Fetch(code, m) == (Some(Ordinal(op)), m.(ip := m.ip + 1));
  }

  /** `StepWidth` once the opcode is fetched and `ip` is past it. */
  lemma ExecuteWidth(code: seq<int>, constants: seq<Value>, op: OpCode, m: Machine)
    requires 1 <= m.ip <= |code| && Execute(code, constants, op, m).Next?
    ensures var end := m.ip + Width(op);
            var ip' := Execute(code, constants, op, m).next.ip;
            && end <= |code|
            && (op !in {OpJump, OpJumpIfFalse, OpLoop} ==> ip' == end)
            && (op == OpJump ==> ip' == end + JumpOperand(code, m.ip - 1))
            && (op == OpJumpIfFalse ==> ip' == end || ip' == end + JumpOperand(code, m.ip - 1))
            && (op == OpLoop ==> ip' == end - JumpOperand(code, m.ip - 1))
  {
    if op in {OpJump, OpJumpIfFalse, OpLoop} {
      JumpWidth(code, constants, op, m);
    } else if op in {OpConstant, OpDefineGlobal, OpGetGlobal, OpSetGlobal} {
      OperandWidth(code, constants, op, m);
    } else if op in {OpAdd, OpSubtract, OpMultiply, OpDivide, OpGreater, OpLess} {
      BinaryWidth(code, constants, op, m);
    } else {
      PlainWidth(code, constants, op, m);
    }
  }

  /** The three jumps read two operand bytes, then move by the operand. */
  lemma JumpWidth(code: seq<int>, constants: seq<Value>, op: OpCode, m: Machine)
    requires op in {OpJump, OpJumpIfFalse, OpLoop}
    requires 1 <= m.ip <= |code| && Execute(code, constants, op, m).Next?
    ensures var ip' := Execute(code, constants, op, m).next.ip;
            && m.ip + 2 <= |code|
            && (op == OpJump ==> ip' == m.ip + 2 + JumpOperand(code, m.ip - 1))
            && (op == OpJumpIfFalse ==> ip' == m.ip + 2 || ip' == m.ip + 2 + JumpOperand(code, m.ip - 1))
            && (op == OpLoop ==> ip' == m.ip + 2 - JumpOperand(code, m.ip - 1))
  {
  }

  /** `OP_CONSTANT` and the three global opcodes read one operand byte. */
  lemma OperandWidth(code: seq<int>, constants: seq<Value>, op: OpCode, m: Machine)
    requires op in {OpConstant, OpDefineGlobal, OpGetGlobal, OpSetGlobal}
    requires 1 <= m.ip <= |code| && Execute(code, constants, op, m).Next?
    ensures m.ip + 1 <= |code| && Execute(code, constants, op, m).next.ip == m.ip + 1
  {
  }

  /** The six `binaryOp` opcodes have no operand. */
  lemma BinaryWidth(code: seq<int>, constants: seq<Value>, op: OpCode, m: Machine)
    requires op in {OpAdd, OpSubtract, OpMultiply, OpDivide, OpGreater, OpLess}
    requires Execute(code, constants, op, m).Next?
    ensures Execute(code, constants, op, m).next.ip == m.ip
  {
    var kind := match op
      case OpAdd => Add case OpSubtract => Sub case OpMultiply => Mul
      case OpDivide => Div case OpGreater => Gt case _ => Lt;
    assert Execute(code, constants, op, m) == BinaryOpSpec(kind, m);
    BinaryKeepsIp(kind, m);
  }

  /** `binaryOp` never moves `ip`. */
  lemma BinaryKeepsIp(kind: BinaryKind, m: Machine)
    requires BinaryOpSpec(kind, m).Next?
    ensures BinaryOpSpec(kind, m).next.ip == m.ip
  {
  }

  /** The remaining opcodes have no operand either. */
  lemma PlainWidth(code: seq<int>, constants: seq<Value>, op: OpCode, m: Machine)
    requires Width(op) == 0 && op !in {OpAdd, OpSubtract, OpMultiply, OpDivide, OpGreater, OpLess}
    requires Execute(code, constants, op, m).Next?
    ensures Execute(code, constants, op, m).next.ip == m.ip
  {
  }

  /** `OP_CONSTANT k` pushes `constants[k]` and skips its operand. */
  lemma ConstantStep(code: seq<int>, constants: seq<Value>, m: Machine)
    requires At(code, m.ip, OpConstant) && m.ip + 1 < |code| && 0 <= code[m.ip + 1] < |constants|
    ensures Step(code, constants, m) == Next(m.(ip := m.ip + 2).Push(constants[code[m.ip + 1]]))
  {
    DecodeOrdinal(OpConstant);
  }

  /** The name operand at `p + 1` of the global instruction at `p`. */
  predicate NameOperand(code: seq<int>, constants: seq<Value>, p: int, name: string)
  {
    0 <= p && p + 1 < |code| && 0 <= code[p + 1] < |constants| && constants[code[p + 1]] == Str(name)
  }

  /** `OP_DEFINE_GLOBAL` pops the top and binds it, whether or not the name was bound. */
  lemma DefineGlobalStep(code: seq<int>, constants: seq<Value>, m: Machine, name: string)
    requires At(code, m.ip, OpDefineGlobal) && NameOperand(code, constants, m.ip, name) && m.stack != []
    ensures Step(code, constants, m) ==
              Next(m.(ip := m.ip + 2, stack := m.stack[..|m.stack| - 1],
                      globals := m.globals[name := m.stack[|m.stack| - 1]]))
  {
    DecodeOrdinal(OpDefineGlobal);
  }

  /** `OP_GET_GLOBAL` fails the run on an unbound name, and otherwise pushes the value, globals unchanged. */
  lemma GetGlobalStep(code: seq<int>, constants: seq<Value>, m: Machine, name: string)
    requires At(code, m.ip, OpGetGlobal) && NameOperand(code, constants, m.ip, name)
    ensures name !in m.globals ==> Step(code, constants, m) == Stop(m.(ip := m.ip + 2), Returned(false))
    ensures name in m.globals ==> Step(code, constants, m) == Next(m.(ip := m.ip + 2).Push(m.globals[name]))
  {
    DecodeOrdinal(OpGetGlobal);
  }

  /** `OP_SET_GLOBAL` fails on an unbound name; otherwise it rebinds to the top and keeps the stack. */
  lemma SetGlobalStep(code: seq<int>, constants: seq<Value>, m: Machine, name: string)
    requires At(code, m.ip, OpSetGlobal) && NameOperand(code, constants, m.ip, name) && m.stack != []
    ensures name !in m.globals ==> Step(code, constants, m) == Stop(m.(ip := m.ip + 2), Returned(false))
    ensures name in m.globals ==>
              Step(code, constants, m) == Next(m.(ip := m.ip + 2, globals := m.globals[name := m.stack[|m.stack| - 1]]))
  {
    DecodeOrdinal(OpSetGlobal);
  }

  /** `OP_NEGATE` on a value that is not a number pops it and pushes nothing. */
  lemma NegateDropsNonNumber(code: seq<int>, constants: seq<Value>, m: Machine)
    requires At(code, m.ip, OpNegate) && m.stack != [] && !m.stack[|m.stack| - 1].IsNumber()
    ensures Step(code, constants, m) == Next(m.(ip := m.ip + 1, stack := m.stack[..|m.stack| - 1]))
  {
    DecodeOrdinal(OpNegate);
  }

  /** `OP_GET_LOCAL` and `OP_SET_LOCAL` have no case in the dispatch and end the run with `false`. */
  lemma LocalsUnsupported(code: seq<int>, constants: seq<Value>, m: Machine)
    requires At(code, m.ip, OpGetLocal) || At(code, m.ip, OpSetLocal)
    ensures Step(code, constants, m) == Stop(m.(ip := m.ip + 1), Returned(false))
  {
    DecodeOrdinal(OpGetLocal);
    DecodeOrdinal(OpSetLocal);
  }

  /** The top two values as the binary instructions see them: `a` below, `b` on top. */
  predicate TopTwo(m: Machine, a: Value, b: Value)
  {
    |m.stack| >= 2 && m.stack[|m.stack| - 2] == a && m.stack[|m.stack| - 1] == b
  }

  function DropTwo(m: Machine): Machine
    requires |m.stack| >= 2
  {
    m.(stack := m.stack[..|m.stack| - 2])
  }

  /**
   * `OP_EQUAL` replaces the top two values by their equality; two doubles
   * written differently stop the run, since their numeric values are not
   * modelled.
   */
  lemma EqualStep(code: seq<int>, constants: seq<Value>, m: Machine, a: Value, b: Value)
    requires At(code, m.ip, OpEqual) && TopTwo(m, a, b)
    ensures !(a.Float? && b.Float? && a.text != b.text) ==>
              Step(code, constants, m) == Next(DropTwo(m).(ip := m.ip + 1).Push(Bool(a == b)))
    ensures a.Float? && b.Float? && a.text != b.text ==>
              Step(code, constants, m) == Stop(DropTwo(m).(ip := m.ip + 1), Unmodelled("double equality"))
  {
    DecodeOrdinal(OpEqual);
    IsEqualIsValueEquality(a, b);
    assert m.stack[..|m.stack| - 1][..|m.stack| - 2] == m.stack[..|m.stack| - 2];
  }

  /** `OP_ADD` with a string operand concatenates the stringified operands. */
  lemma AddStringStep(code: seq<int>, constants: seq<Value>, m: Machine, a: Value, b: Value)
    requires At(code, m.ip, OpAdd) && TopTwo(m, a, b) && (a.Str? || b.Str?)
    requires Stringify(a).Some? && Stringify(b).Some?
    ensures Step(code, constants, m) ==
              Next(DropTwo(m).(ip := m.ip + 1).Push(Str(Stringify(a).value + Stringify(b).value)))
  {
    DecodeOrdinal(OpAdd);
    assert m.stack[..|m.stack| - 1][..|m.stack| - 2] == m.stack[..|m.stack| - 2];
  }

  /** Arithmetic on an operand that is not a number pushes `null` instead of failing. */
  lemma ArithmeticOnNonNumberPushesNull(code: seq<int>, constants: seq<Value>, m: Machine, a: Value, b: Value, op: OpCode)
    requires op in {OpAdd, OpSubtract, OpMultiply, OpDivide, OpGreater, OpLess}
    requires At(code, m.ip, op) && TopTwo(m, a, b) && !a.Str? && !b.Str?
    requires !a.IsNumber() || !b.IsNumber()
    ensures Step(code, constants, m) == Next(DropTwo(m).(ip := m.ip + 1).Push(Nil))
  {
    DecodeOrdinal(op);
    assert m.stack[..|m.stack| - 1][..|m.stack| - 2] == m.stack[..|m.stack| - 2];
  }

  /** `OP_ADD`, `OP_SUBTRACT`, `OP_MULTIPLY` and `OP_DIVIDE` on two ints push the wrapped 32-bit result. */
  lemma IntArithStep(code: seq<int>, constants: seq<Value>, m: Machine, x: int, y: int, op: OpCode)
    requires op in {OpAdd, OpSubtract, OpMultiply, OpDivide}
    requires At(code, m.ip, op) && TopTwo(m, Int(x), Int(y)) && InRange(x) && InRange(y)
    requires op == OpDivide ==> y != 0
    ensures Step(code, constants, m) ==
              Next(DropTwo(m).(ip := m.ip + 1).Push(Int(Wrap32(
                if op == OpAdd then x + y
                else if op == OpSubtract then x - y
                else if op == OpMultiply then x * y
                else TruncDiv(x, y)))))
  {
    StepExecutes(code, constants, m, op);
    var kind := if op == OpAdd then Add else if op == OpSubtract then Sub else if op == OpMultiply then Mul else Div;
    assert Execute(code, constants, op, m.(ip := m.ip + 1)) == BinaryOpSpec(kind, m.(ip := m.ip + 1));
    IntBinary(kind, m.(ip := m.ip + 1), x, y);
  }

  /** `binaryOp` on two ints pops both and pushes `IntArith`'s result. */
  lemma IntBinary(kind: BinaryKind, m: Machine, x: int, y: int)
    requires TopTwo(m, Int(x), Int(y)) && InRange(x) && InRange(y) && !(kind == Div && y == 0)
    ensures BinaryOpSpec(kind, m) == Next(DropTwo(m).Push(IntArith(kind, x, y).value))
  {
    assert m.stack[..|m.stack| - 1][..|m.stack| - 2] == m.stack[..|m.stack| - 2];
  }

  /** Integer division by zero is the one arithmetic case that crashes. */
  lemma DivideByZeroCrashes(code: seq<int>, constants: seq<Value>, m: Machine, x: int)
    requires At(code, m.ip, OpDivide) && TopTwo(m, Int(x), Int(0)) && InRange(x)
    ensures Step(code, constants, m).Stop? && Step(code, constants, m).outcome.Crashed?
  {
    DecodeOrdinal(OpDivide);
  }

  /** `OP_GREATER`, `OP_LESS` and `OP_EQUAL` on two ints replace them by the boolean result. */
  lemma CompareStep(code: seq<int>, constants: seq<Value>, m: Machine, x: int, y: int, op: OpCode)
    requires op in {OpGreater, OpLess, OpEqual}
    requires At(code, m.ip, op) && TopTwo(m, Int(x), Int(y)) && InRange(x) && InRange(y)
    ensures Step(code, constants, m) ==
              Next(DropTwo(m).(ip := m.ip + 1).Push(Bool(if op == OpGreater then x > y else if op == OpLess then x < y else x == y)))
  {
    DecodeOrdinal(op);
    IsEqualIsValueEquality(Int(x), Int(y));
    assert m.stack[..|m.stack| - 1][..|m.stack| - 2] == m.stack[..|m.stack| - 2];
  }

  /** `OP_NOT` replaces the top by the negation of its truthiness. */
  lemma NotStep(code: seq<int>, constants: seq<Value>, m: Machine)
    requires At(code, m.ip, OpNot) && m.stack != []
    ensures Step(code, constants, m) ==
              Next(m.(ip := m.ip + 1, stack := m.stack[..|m.stack| - 1]).Push(Bool(!IsTruthy(m.stack[|m.stack| - 1]))))
  {
    DecodeOrdinal(OpNot);
  }

  /**
   * `a <= b` compiles to `OP_GREATER; OP_NOT`, `a >= b` to `OP_LESS; OP_NOT` and
   * `a != b` to `OP_EQUAL; OP_NOT`: on ints, the two steps leave exactly the
   * intended boolean.
   */
  lemma NegatedComparisons(code: seq<int>, constants: seq<Value>, m: Machine, x: int, y: int, op: OpCode)
    requires op in {OpGreater, OpLess, OpEqual}
    requires At(code, m.ip, op) && At(code, m.ip + 1, OpNot) && TopTwo(m, Int(x), Int(y)) && InRange(x) && InRange(y)
    ensures Step(code, constants, m).Next?
    ensures Step(code, constants, Step(code, constants, m).next) ==
              Next(DropTwo(m).(ip := m.ip + 2).Push(Bool(if op == OpGreater then x <= y else if op == OpLess then x >= y else x != y)))
  {
    var base := DropTwo(m).(ip := m.ip + 1);
    var r := if op == OpGreater then x > y else if op == OpLess then x < y else x == y;
    CompareStep(code, constants, m, x, y, op);
    var m1 := base.Push(Bool(r));
    NotStep(code, constants, m1);
    assert m1.stack[..|m1.stack| - 1] == base.stack;
  }
}

module VirtualMachineImpl {
  import opened Wrappers
  import opened JavaInt
  import opened Values
  import opened OpCodes
  import opened Chunks
  import opened VirtualMachine

  /** A step's outcome as the loop sees it: `None` to carry on. */
  function AsStep(m: Machine, stop: Option<Outcome>): StepResult
  {
    if stop.None? then Next(m) else Stop(m, stop.value)
  }

  class VM {
    var chunk: Chunk?
    var ip: int
    var stack: seq<Value>
    var globals: map<string, Value>
    var output: seq<string>
    var input: seq<string>

    function State(): Machine
      reads this
    {
      Machine(ip, stack, globals, output, input)
    }

    /** A fresh VM: empty stack and globals; `lines` are what the console will supply. */
    constructor(lines: seq<string>)
      ensures State() == Machine(0, [], map[], [], lines) && chunk == null
    {
      chunk := null;
      ip := 0;
      stack := [];
      globals := map[];
      output := [];
      input := lines;
    }

    method Push(v: Value)
      modifies this
      ensures State() == old(State()).Push(v) && chunk == old(chunk)
    {
      stack := stack + [v];
    }

    method Pop() returns (v: Option<Value>)
      modifies this
      ensures (v, State()) == PopSpec(old(State())) && chunk == old(chunk)
    {
      if stack == [] {
        v := None;
      } else {
        v := Some(stack[|stack| - 1]);
        stack := stack[..|stack| - 1];
      }
    }

    /** `chunk.code.get(ip++)`. */
    method ReadByte() returns (b: Option<int>)
      requires chunk != null
      modifies this
      ensures chunk == old(chunk) && (b, State()) == Fetch(chunk.code, old(State()))
    {
      b := if 0 <= ip < |chunk.code| then Some(chunk.code[ip]) else None;
      ip := ip + 1;
    }

    method ReadShort() returns (offset: Option<int>)
      requires chunk != null
      modifies this
      ensures chunk == old(chunk) && (offset, State()) == ReadShortSpec(chunk.code, old(State()))
    {
      var high := ReadByte();
      var low := ReadByte();
      if high.None? || low.None? {
        offset := None;
      } else {
        offset := Some(BigEndian(high.value % 256, low.value % 256));
      }
    }

    method ReadName() returns (name: Option<string>, stop: Option<Outcome>)
      requires chunk != null
      modifies this
      ensures chunk == old(chunk)
      ensures name.Some? <==> stop.None?
      ensures VirtualMachine.ReadName(chunk.code, chunk.constants, old(State())) ==
              if name.Some? then Name(name.value, State()) else NameFailed(Stop(State(), stop.value))
    {
      var k := ReadByte();
      if k.None? || !(0 <= k.value < |chunk.constants|) {
        return None, Some(Crashed("IndexOutOfBoundsException"));
      }
      match chunk.constants[k.value]
      case Str(s) => name, stop := Some(s), None;
      case Nil => name, stop := None, Some(Unmodelled("null variable name"));
      case _ => name, stop := None, Some(Crashed("ClassCastException"));
    }

    /** `binaryOp(op)`. */
    method BinaryOp(kind: BinaryKind) returns (stop: Option<Outcome>)
      modifies this
      ensures AsStep(State(), stop) == BinaryOpSpec(kind, old(State())) && chunk == old(chunk)
    {
      var b := Pop();
      if b.None? { return Some(Crashed("EmptyStackException")); }
      var a := Pop();
      if a.None? { return Some(Crashed("EmptyStackException")); }
      var x, y := a.value, b.value;
      if kind == Add && (x.Str? || y.Str?) {
        var sx, sy := Stringify(x), Stringify(y);
        if sx.Some? && sy.Some? {
          Push(Str(sx.value + sy.value));
          return None;
        }
        return Some(Unmodelled("toString of a double or function"));
      }
      if !x.IsNumber() || !y.IsNumber() {
        Push(Nil);
        return None;
      }
      if x.Float? || y.Float? {
        return Some(Unmodelled("double arithmetic"));
      }
      if !InRange(x.i) || !InRange(y.i) {
        return Some(Unmodelled("int outside 32 bits"));
      }
      var r := IntArith(kind, x.i, y.i);
      if r.None? {
        return Some(Crashed("ArithmeticException"));
      }
      Push(r.value);
      return None;
    }

    /** One turn of the loop of `interpret`. */
    method StepOnce() returns (stop: Option<Outcome>)
      requires chunk != null
      modifies this
      ensures chunk == old(chunk) && AsStep(State(), stop) == Step(chunk.code, chunk.constants, old(State()))
    {
      var instruction := ReadByte();
      if instruction.None? {
        return Some(Returned(true));
      }
      var op := Decode(instruction.value);
      if op.None? {
        return Some(Crashed("ArrayIndexOutOfBoundsException"));
      }
      stop := ExecuteOp(op.value);
    }

    method ExecuteOp(op: OpCode) returns (stop: Option<Outcome>)
      requires chunk != null
      modifies this
      ensures chunk == old(chunk) && AsStep(State(), stop) == Execute(chunk.code, chunk.constants, op, old(State()))
    {
      match op
      case OpReturn =>
        output := output + [ReturnBanner];
        return Some(Returned(true));
      case OpConstant =>
        var k := ReadByte();
        if k.None? || !(0 <= k.value < |chunk.constants|) {
          return Some(Crashed("IndexOutOfBoundsException"));
        }
        Push(chunk.constants[k.value]);
        return None;
      case OpPop =>
        var v := Pop();
        return if v.None? then Some(Crashed("EmptyStackException")) else None;
      case OpNil => Push(Nil); return None;
      case OpTrue => Push(Bool(true)); return None;
      case OpFalse => Push(Bool(false)); return None;
      case OpNegate => stop := Negate();
      case OpAdd => stop := BinaryOp(Add);
      case OpSubtract => stop := BinaryOp(Sub);
      case OpMultiply => stop := BinaryOp(Mul);
      case OpDivide => stop := BinaryOp(Div);
      case OpGreater => stop := BinaryOp(Gt);
      case OpLess => stop := BinaryOp(Lt);
      case OpEqual =>
        var b := Pop();
        if b.None? { return Some(Crashed("EmptyStackException")); }
        var a := Pop();
        if a.None? { return Some(Crashed("EmptyStackException")); }
        var equal := IsEqual(a.value, b.value);
        if equal.None? { return Some(Unmodelled("double equality")); }
        Push(Bool(equal.value));
        return None;
      case OpNot =>
        var v := Pop();
        if v.None? { return Some(Crashed("EmptyStackException")); }
        Push(Bool(!IsTruthy(v.value)));
        return None;
      case OpDefineGlobal | OpGetGlobal | OpSetGlobal => stop := GlobalOp(op);
      case OpGetLocal => return Some(Returned(false));
      case OpSetLocal => return Some(Returned(false));
      case OpJump | OpJumpIfFalse | OpLoop => stop := JumpOp(op);
      case OpPrint =>
        var v := Pop();
        if v.None? { return Some(Crashed("EmptyStackException")); }
        var text := Stringify(v.value);
        if text.None? { return Some(Unmodelled("toString of a double or function")); }
        output := output + [text.value + "\n"];
        return None;
      case OpInput =>
        output := output + [InputPrompt];
        if input == [] { return Some(Crashed("NoSuchElementException")); }
        var line := input[0];
        input := input[1..];
        var v := InputValue(line);
        if v.None? { return Some(Unmodelled("double input")); }
        Push(v.value);
        return None;
    }

    method Negate() returns (stop: Option<Outcome>)
      modifies this
      ensures AsStep(State(), stop) == Execute([], [], OpNegate, old(State())) && chunk == old(chunk)
    {
      var v := Pop();
      if v.None? { return Some(Crashed("EmptyStackException")); }
      match v.value
      case Float(_) => return Some(Unmodelled("double arithmetic"));
      case Int(i) =>
        if !InRange(i) { return Some(Unmodelled("int outside 32 bits")); }
        Push(Int(Wrap32(-i)));
        return None;
      case _ => return None;
    }

    method GlobalOp(op: OpCode) returns (stop: Option<Outcome>)
      requires chunk != null && op in {OpDefineGlobal, OpGetGlobal, OpSetGlobal}
      modifies this
      ensures chunk == old(chunk) && AsStep(State(), stop) == Execute(chunk.code, chunk.constants, op, old(State()))
    {
      var name, failed := ReadName();
      if name.None? { return failed; }
      var n := name.value;
      if op == OpDefineGlobal {
        var v := Pop();
        if v.None? { return Some(Crashed("EmptyStackException")); }
        globals := globals[n := v.value];
        return None;
      }
      if n !in globals { return Some(Returned(false)); }
      if op == OpGetGlobal {
        Push(globals[n]);
        return None;
      }
      if stack == [] { return Some(Crashed("EmptyStackException")); }
      globals := globals[n := stack[|stack| - 1]];
      return None;
    }

    method JumpOp(op: OpCode) returns (stop: Option<Outcome>)
      requires chunk != null && op in {OpJump, OpJumpIfFalse, OpLoop}
      modifies this
      ensures chunk == old(chunk) && AsStep(State(), stop) == Execute(chunk.code, chunk.constants, op, old(State()))
    {
      var offset := ReadShort();
      if offset.None? { return Some(Crashed("IndexOutOfBoundsException")); }
      if op == OpJump {
        ip := ip + offset.value;
      } else if op == OpLoop {
        ip := ip - offset.value;
      } else {
        if stack == [] { return Some(Crashed("EmptyStackException")); }
        if !IsTruthy(stack[|stack| - 1]) {
          ip := ip + offset.value;
        }
      }
      return None;
    }

    /** One turn of the dispatch loop: where the run ends does not change. */
    method Turn(ghost fuel: nat, ghost goal: (Machine, Outcome)) returns (stop: Option<Outcome>)
      requires chunk != null && fuel > 0 && Run(chunk.code, chunk.constants, State(), fuel) == goal
      modifies this
      ensures chunk == old(chunk)
      ensures stop.None? ==> Run(chunk.code, chunk.constants, State(), fuel - 1) == goal
      ensures stop.Some? ==> (State(), stop.value) == goal
    {
      ghost var before := State();
      stop := StepOnce();
      RunUnfold(chunk.code, chunk.constants, before, fuel);
    }

    /**
     * `interpret(chunk)`: `ip` starts again at 0, but the stack, the globals and
     * the console carry over from earlier calls on the same VM.
     */
    method Interpret(c: Chunk, fuel: nat) returns (outcome: Outcome)
      requires c.Valid()
      modifies this
      ensures (State(), outcome) == Run(c.code, c.constants, old(State()).(ip := 0), fuel)
      ensures chunk == c
    {
      chunk := c;
      ip := 0;
      ghost var goal := Run(c.code, c.constants, old(State()).(ip := 0), fuel);
      assert State() == old(State()).(ip := 0);
      var remaining := fuel;
      while remaining > 0
        invariant chunk == c
        invariant Run(c.code, c.constants, State(), remaining) == goal
      {
        var stop := Turn(remaining, goal);
        if stop.Some? {
          return stop.value;
        }
        remaining := remaining - 1;
      }
      return OutOfFuel;
    }
  }
}

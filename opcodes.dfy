/**
 * The bytecode instruction set. An opcode is written into a chunk as its
 * position in the enumeration, and the VM decodes a byte by indexing the
 * list of all opcodes with it.
 */
module OpCodes {
  import opened Wrappers

  datatype OpCode =
    | OpReturn | OpConstant | OpPop
    | OpNegate | OpAdd | OpSubtract | OpMultiply | OpDivide
    | OpNil | OpTrue | OpFalse | OpNot | OpEqual | OpGreater | OpLess
    | OpDefineGlobal | OpGetGlobal | OpSetGlobal | OpGetLocal | OpSetLocal
    | OpJump | OpJumpIfFalse | OpLoop
    | OpPrint | OpInput

  /** The opcodes in declaration order: `OpCode.values()`. */
  const AllOps: seq<OpCode> := [
    OpReturn, OpConstant, OpPop,
    OpNegate, OpAdd, OpSubtract, OpMultiply, OpDivide,
    OpNil, OpTrue, OpFalse, OpNot, OpEqual, OpGreater, OpLess,
    OpDefineGlobal, OpGetGlobal, OpSetGlobal, OpGetLocal, OpSetLocal,
    OpJump, OpJumpIfFalse, OpLoop,
    OpPrint, OpInput]

  const OpCount: nat := 25

  /** `op.ordinal()`: the byte a chunk stores for `op`. */
  function Ordinal(op: OpCode): (n: nat)
    ensures n < OpCount && AllOps[n] == op
  {
    match op
    case OpReturn => 0
    case OpConstant => 1
    case OpPop => 2
    case OpNegate => 3
    case OpAdd => 4
    case OpSubtract => 5
    case OpMultiply => 6
    case OpDivide => 7
    case OpNil => 8
    case OpTrue => 9
    case OpFalse => 10
    case OpNot => 11
    case OpEqual => 12
    case OpGreater => 13
    case OpLess => 14
    case OpDefineGlobal => 15
    case OpGetGlobal => 16
    case OpSetGlobal => 17
    case OpGetLocal => 18
    case OpSetLocal => 19
    case OpJump => 20
    case OpJumpIfFalse => 21
    case OpLoop => 22
    case OpPrint => 23
    case OpInput => 24
  }

  /** `OpCode.values()[b]`, which throws for a byte outside `0..24` (here `None`). */
  function Decode(b: int): (r: Option<OpCode>)
    ensures r.Some? <==> 0 <= b < OpCount
    ensures r.Some? ==> Ordinal(r.value) == b
  {
    if 0 <= b < |AllOps| then
      OrdinalsInOrder(b);
      Some(AllOps[b])
    else None
  }

  lemma OrdinalsInOrder(i: nat)
    requires i < |AllOps|
    ensures Ordinal(AllOps[i]) == i
  {
  }

  /** Decoding the byte of an opcode gives the opcode back. */
  lemma DecodeOrdinal(op: OpCode)
    ensures Decode(Ordinal(op)) == Some(op)
  {
  }

  /** Distinct opcodes have distinct bytes. */
  lemma OrdinalInjective(a: OpCode, b: OpCode)
    ensures Ordinal(a) == Ordinal(b) ==> a == b
  {
    DecodeOrdinal(a);
    DecodeOrdinal(b);
  }

  /** How many operand bytes follow the opcode in the instruction stream. */
  function Width(op: OpCode): (w: nat)
    ensures w <= 2
    ensures w == 1 <==> op in {OpConstant, OpDefineGlobal, OpGetGlobal, OpSetGlobal}
    ensures w == 2 <==> op in {OpJump, OpJumpIfFalse, OpLoop}
  {
    match op
    case OpConstant | OpDefineGlobal | OpGetGlobal | OpSetGlobal => 1
    case OpJump | OpJumpIfFalse | OpLoop => 2
    case _ => 0
  }

  /** The first and last opcodes have the bytes 0 and 24. */
  lemma Extremes()
    ensures Ordinal(OpReturn) == 0 && Ordinal(OpInput) == 24
    ensures Ordinal(OpGetLocal) == 18 && Ordinal(OpSetLocal) == 19
  {
  }
}

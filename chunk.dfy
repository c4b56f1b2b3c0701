/**
 * A chunk of compiled code: the instruction bytes, the constant pool and, for
 * each byte, the source line it came from. All three only grow, except that
 * the compiler back-patches jump operands in place.
 */
module Chunks {
  import opened Values
  import opened OpCodes
  import opened Wrappers

  /** The contents of a chunk as a value, for stating what its methods do. */
  datatype ChunkData = ChunkData(code: seq<int>, constants: seq<Value>, lines: seq<int>)
  {
    /** Every byte has its line. */
    predicate Valid() { |code| == |lines| }

    /** `write(int, int)`: append one byte and its line. */
    function Write(b: int, line: int): (r: ChunkData)
      ensures r.code == code + [b] && r.lines == lines + [line]
      ensures r.constants == constants
      ensures Valid() ==> r.Valid()
    {
      ChunkData(code + [b], constants, lines + [line])
    }

    /** `write(OpCode, int)`: append the opcode's ordinal. */
    function WriteOp(op: OpCode, line: int): (r: ChunkData)
      ensures r.code == code + [Ordinal(op)] && r.lines == lines + [line]
      ensures r.constants == constants
      ensures Decode(r.code[|code|]) == Some(op)
      ensures Valid() ==> r.Valid()
    {
      DecodeOrdinal(op);
      Write(Ordinal(op), line)
    }

    /** `addConstant`: append to the pool and return the new entry's index. */
    function AddConstant(v: Value): (r: (ChunkData, nat))
      ensures r.1 == |constants| && r.0.constants == constants + [v]
      ensures r.0.constants[r.1] == v
      ensures r.0.code == code && r.0.lines == lines
    {
      (this.(constants := constants + [v]), |constants|)
    }
  }

  const EmptyChunk: ChunkData := ChunkData([], [], [])

  /** The pool never deduplicates: adding the same value twice yields two entries. */
  lemma AddConstantNeverShares(c: ChunkData, v: Value)
    ensures var (c1, i) := c.AddConstant(v);
            var (c2, j) := c1.AddConstant(v);
            i != j && c2.constants[i] == c2.constants[j] == v
  {
  }

  class Chunk {
    var code: seq<int>
    var constants: seq<Value>
    var lines: seq<int>

    function Data(): ChunkData
      reads this
    {
      ChunkData(code, constants, lines)
    }

    predicate Valid()
      reads this
    {
      |code| == |lines|
    }

    constructor()
      ensures code == [] && constants == [] && lines == []
      ensures Valid()
    {
      code := [];
      constants := [];
      lines := [];
    }

    /** `write(int byteValue, int line)`. */
    method Write(b: int, line: int)
      modifies this
      ensures Data() == old(Data()).Write(b, line)
      ensures old(Valid()) ==> Valid()
    {
      code := code + [b];
      lines := lines + [line];
    }

    /** `write(OpCode op, int line)`. */
    method WriteOp(op: OpCode, line: int)
      modifies this
      ensures Data() == old(Data()).WriteOp(op, line)
      ensures old(Valid()) ==> Valid()
    {
      Write(Ordinal(op), line);
    }

    /** `addConstant(Object value)`. */
    method AddConstant(v: Value) returns (index: nat)
      modifies this
      ensures (Data(), index) == old(Data()).AddConstant(v)
      ensures old(Valid()) ==> Valid()
    {
      constants := constants + [v];
      index := |constants| - 1;
    }

    /** `code.set(index, b)`, used only by jump back-patching. */
    method SetCode(index: nat, b: int)
      requires index < |code|
      modifies this
      ensures Data() == old(Data()).(code := old(code)[index := b])
      ensures old(Valid()) ==> Valid()
    {
      code := code[index := b];
    }
  }
}

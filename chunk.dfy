// The bytecode container: code bytes, their source lines and a constant
// pool (src/chunk.c).
module Chunks {
  import opened Values
  import opened Memory
  import opened ValueArrays

  newtype byte = x: int | 0 <= x < 256

  // Operation codes, in the order the interpreter's dispatch lists them.
  const OpConstant: byte := 0
  const OpAdd: byte := 1
  const OpSubtract: byte := 2
  const OpMultiply: byte := 3
  const OpDivide: byte := 4
  const OpNegate: byte := 5
  const OpReturn: byte := 6

  /** Chunk: `code` and `lines` are two buffers sharing one `count` and one
      `capacity`; `constants` is the embedded constant pool. */
  class Chunk {
    var count: nat
    var capacity: nat
    var code: array<byte>
    var lines: array<int>
    const constants: ValueArray
    ghost var Repr: set<object>

    ghost predicate Valid()
      reads this, Repr
    {
      && constants in Repr
      && Repr == {this, code, lines, constants, constants.values}
      && code.Length == capacity && lines.Length == capacity
      && count <= capacity
      && constants.Valid()
    }

    /** The bytes written so far. */
    ghost function Code(): seq<byte>
      reads this, code
      requires count <= code.Length
    {
      code[..count]
    }

    /** The source line of each byte written so far. */
    ghost function Lines(): seq<int>
      reads this, lines
      requires count <= lines.Length
    {
      lines[..count]
    }

    /** The constant pool. */
    ghost function Constants(): seq<Value>
      reads this, Repr
      requires Valid()
    {
      constants.Contents()
    }

    /** init_chunk */
    constructor Init()
      ensures Valid() && fresh(Repr)
      ensures count == 0 && capacity == 0
      ensures Code() == [] && Lines() == [] && Constants() == []
    {
      count := 0;
      capacity := 0;
      code := new byte[0];
      lines := new int[0];
      var pool := new ValueArray.Init();
      constants := pool;
      Repr := {this, code, lines, pool, pool.values};
    }

    /** free_chunk: release both buffers and the pool, then re-initialise. */
    method Free()
      requires Valid()
      modifies Repr
      ensures Valid() && fresh(Repr - old(Repr))
      ensures count == 0 && capacity == 0
      ensures Code() == [] && Lines() == [] && Constants() == []
    {
      constants.Free();
      count := 0;
      capacity := 0;
      code := new byte[0];
      lines := new int[0];
      Repr := {this, code, lines, constants, constants.values};
    }

    /** write_chunk: append `b` with its source `line`, growing both buffers
        first when they are full. Nothing written earlier changes. */
    method Write(b: byte, line: int)
      requires Valid()
      modifies Repr
      ensures Valid() && fresh(Repr - old(Repr))
      ensures count == old(count) + 1
      ensures Code() == old(Code()) + [b]
      ensures Lines() == old(Lines()) + [line]
      ensures Constants() == old(Constants())
      ensures capacity == if old(count) < old(capacity) then old(capacity) else GrowCapacity(old(capacity))
    {
      if capacity < count + 1 {
        Grow();
      }
      code[count] := b;
      lines[count] := line;
      count := count + 1;
    }

    /** grow_chunk: reallocate both buffers to GROW_CAPACITY slots, keeping
        their contents. */
    method Grow()
      requires Valid()
      modifies this
      ensures Valid() && fresh(Repr - old(Repr))
      ensures count == old(count) && capacity == GrowCapacity(old(capacity))
      ensures code[..old(capacity)] == old(code[..]) && lines[..old(capacity)] == old(lines[..])
      ensures Constants() == old(Constants())
    {
      var oldCode, oldLines := code, lines;
      capacity := GrowCapacity(capacity);
      code := new byte[capacity](i reads oldCode => if 0 <= i < oldCode.Length then oldCode[i] else 0);
      lines := new int[capacity](i reads oldLines => if 0 <= i < oldLines.Length then oldLines[i] else 0);
      Repr := {this, code, lines, constants, constants.values};
    }

    /** add_constant: append `value` to the pool and return its index. */
    method AddConstant(value: Value) returns (index: int)
      requires Valid()
      modifies Repr
      ensures Valid() && fresh(Repr - old(Repr))
      ensures index == |old(Constants())|
      ensures Constants() == old(Constants()) + [value]
      ensures count == old(count) && capacity == old(capacity)
      ensures Code() == old(Code()) && Lines() == old(Lines())
    {
      constants.Write(value);
      Repr := {this, code, lines, constants, constants.values};
      index := constants.count - 1;
    }
  }
}

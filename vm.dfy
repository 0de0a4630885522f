// The stack machine that executes a chunk (src/vm.c).
module Vm {
  import opened Options
  import opened Values
  import opened Chunks
  import opened Scanner
  import opened Compiler

  /** What interpret returns. This version never produces a runtime error. */
  datatype InterpretResult = InterpretOk | InterpretCompileError | InterpretRuntimeError

  /** A point where the C code reads or writes memory it does not own: the
      model stops there instead of guessing what the machine would do. */
  datatype Fault =
    | StackUnderflow      // pop with stack_top at the bottom of the stack
    | StackOverflow       // push with stack_top one past the last slot
    | CodeOverrun         // READ_BYTE past the last byte written
    | ConstantOutOfRange  // READ_CONSTANT past the last constant written

  /** The effect of executing the instruction at `ip`. */
  datatype StepResult =
    | Next(stack: seq<Value>, ip: nat)     // carry on from `ip`
    | Exit(value: Value, rest: seq<Value>)   // OP_RETURN popped `value`
    | Stuck(fault: Fault)

  /** How run ends. */
  datatype Halt = Returned(value: Value, rest: seq<Value>) | Undefined(fault: Fault)

  /** How interpret ends. */
  datatype Outcome = Finished(result: InterpretResult) | Failed(fault: Fault)

  predicate IsBinary(op: byte)
  {
    op == OpAdd || op == OpSubtract || op == OpMultiply || op == OpDivide
  }

  /** BINARY_OP: the operator each binary opcode applies, the left operand
      first. */
  function Arithmetic(op: byte, a: Number, b: Number): Number
    requires IsBinary(op)
  {
    if op == OpAdd then Add(a, b)
    else if op == OpSubtract then Sub(a, b)
    else if op == OpMultiply then Mul(a, b)
    else Div(a, b)
  }

  // The stack effect of each opcode, as a table independent of the
  // dispatch: how many bytes it occupies, how many values it pops, how
  // many it pushes. Bytes with no case occupy one byte and touch nothing.

  function Width(op: byte): nat
  {
    if op == OpConstant then 2 else 1
  }

  function Pops(op: byte): nat
  {
    if IsBinary(op) then 2 else if op == OpNegate || op == OpReturn then 1 else 0
  }

  function Pushes(op: byte): nat
  {
    if op == OpConstant || IsBinary(op) || op == OpNegate then 1 else 0
  }

  /** One turn of run's loop, from the instruction at `ip`, over a stack of
      `room` slots. */
  function StepAt(code: seq<byte>, constants: seq<Value>, room: nat, stack: seq<Value>, ip: nat): (r: StepResult)
    ensures r.Next? ==> ip < |code| && r.ip == ip + Width(code[ip]) <= |code|
    ensures r.Next? ==>
      && Pops(code[ip]) <= |stack|
      && |r.stack| == |stack| - Pops(code[ip]) + Pushes(code[ip])
      && r.stack[..|stack| - Pops(code[ip])] == stack[..|stack| - Pops(code[ip])]
    ensures r.Exit? ==> ip < |code| && code[ip] == OpReturn
    ensures r == Stuck(CodeOverrun) <==> ip >= |code| || ip + Width(code[ip]) > |code|
    ensures r == Stuck(StackUnderflow) <==>
      ip < |code| && ip + Width(code[ip]) <= |code| && |stack| < Pops(code[ip])
    ensures |stack| <= room && r.Next? ==> |r.stack| <= room
  {
    if ip >= |code| then Stuck(CodeOverrun)
    else
      var op := code[ip];
      if op == OpConstant then
        if ip + 1 >= |code| then Stuck(CodeOverrun)
        else if code[ip + 1] as int >= |constants| then Stuck(ConstantOutOfRange)
        else if |stack| >= room then Stuck(StackOverflow)
        else Next(stack + [constants[code[ip + 1]]], ip + 2)
      else if IsBinary(op) then
        if |stack| < 2 then Stuck(StackUnderflow)
        else
          var a, b := stack[|stack| - 2], stack[|stack| - 1];
          Next(stack[..|stack| - 2] + [NumberVal(Arithmetic(op, AsNumber(a), AsNumber(b)))], ip + 1)
      else if op == OpNegate then
        if |stack| < 1 then Stuck(StackUnderflow)
        else Next(stack[..|stack| - 1] + [NumberVal(Neg(AsNumber(stack[|stack| - 1])))], ip + 1)
      else if op == OpReturn then
        if |stack| < 1 then Stuck(StackUnderflow)
        else Exit(stack[|stack| - 1], stack[..|stack| - 1])
      else Next(stack, ip + 1)
  }

  /** run: turn the loop until OP_RETURN or a fault. Every turn moves `ip`
      forward, so the loop ends. */
  function Exec(code: seq<byte>, constants: seq<Value>, room: nat, stack: seq<Value>, ip: nat): Halt
    requires ip <= |code|
    decreases |code| - ip
  {
    match StepAt(code, constants, room, stack, ip)
    case Next(s, j) => Exec(code, constants, room, s, j)
    case Exit(v, rest) => Returned(v, rest)
    case Stuck(f) => Undefined(f)
  }

  // ---------------------------------------------------------------------
  // Each opcode's effect on the stack

  /** OP_CONSTANT pushes the constant the next byte names and moves past
      both bytes. */
  lemma StepConstant(code: seq<byte>, constants: seq<Value>, room: nat, stack: seq<Value>, ip: nat)
    requires ip + 1 < |code| && code[ip] == OpConstant
    requires (code[ip + 1] as int) < |constants| && |stack| < room
    ensures StepAt(code, constants, room, stack, ip) == Next(stack + [constants[code[ip + 1]]], ip + 2)
  {
  }

  /** A binary opcode pops the right operand, then the left one below it,
      and pushes their combination. */
  lemma StepBinary(code: seq<byte>, constants: seq<Value>, room: nat, rest: seq<Value>, a: Value, b: Value, ip: nat)
    requires ip < |code| && IsBinary(code[ip])
    ensures StepAt(code, constants, room, rest + [a, b], ip)
      == Next(rest + [NumberVal(Arithmetic(code[ip], AsNumber(a), AsNumber(b)))], ip + 1)
  {
    var s := rest + [a, b];
    assert s[..|s| - 2] == rest;
  }

  /** OP_NEGATE replaces the top value and leaves the depth alone. */
  lemma StepNegate(code: seq<byte>, constants: seq<Value>, room: nat, rest: seq<Value>, a: Value, ip: nat)
    requires ip < |code| && code[ip] == OpNegate
    ensures StepAt(code, constants, room, rest + [a], ip) == Next(rest + [NumberVal(Neg(AsNumber(a)))], ip + 1)
  {
    var s := rest + [a];
    assert s[..|s| - 1] == rest;
  }

  /** OP_RETURN pops the top value and leaves the loop. */
  lemma StepReturn(code: seq<byte>, constants: seq<Value>, room: nat, rest: seq<Value>, v: Value, ip: nat)
    requires ip < |code| && code[ip] == OpReturn
    ensures StepAt(code, constants, room, rest + [v], ip) == Exit(v, rest)
  {
    var s := rest + [v];
    assert s[..|s| - 1] == rest;
  }

  /** A byte no case names is stepped over and nothing else happens. */
  lemma StepUnknown(code: seq<byte>, constants: seq<Value>, room: nat, stack: seq<Value>, ip: nat)
    requires ip < |code| && code[ip] > OpReturn
    ensures StepAt(code, constants, room, stack, ip) == Next(stack, ip + 1)
  {
  }

  // ---------------------------------------------------------------------
  // Properties of whole runs

  /** OP_RETURN is the only way out of run: a run that returns executed an
      OP_RETURN at or after where it started. */
  lemma {:induction false} ExecReturnsOnlyAtReturn(code: seq<byte>, constants: seq<Value>, room: nat, stack: seq<Value>, ip: nat)
    requires ip <= |code|
    requires Exec(code, constants, room, stack, ip).Returned?
    ensures exists j :: ip <= j < |code| && code[j] == OpReturn
    decreases |code| - ip
  {
    match StepAt(code, constants, room, stack, ip)
    case Next(s, j) =>
      ExecReturnsOnlyAtReturn(code, constants, room, s, j);
    case Exit(_, _) =>
      assert code[ip] == OpReturn;
    case Stuck(_) =>
  }

  /** A run over bytes no case names reaches the first named byte with the
      stack untouched. */
  lemma {:induction false} ExecSkipsUnknown(code: seq<byte>, constants: seq<Value>, room: nat, stack: seq<Value>, ip: nat, j: nat)
    requires ip <= j <= |code|
    requires forall k :: ip <= k < j ==> code[k] > OpReturn
    ensures Exec(code, constants, room, stack, ip) == Exec(code, constants, room, stack, j)
    decreases j - ip
  {
    if ip < j {
      StepUnknown(code, constants, room, stack, ip);
      ExecSkipsUnknown(code, constants, room, stack, ip + 1, j);
    }
  }

  /** The stack never outgrows its `room` slots: a run that starts within
      bounds and returns leaves fewer than `room` values behind. */
  lemma {:induction false} ExecStaysInRoom(code: seq<byte>, constants: seq<Value>, room: nat, stack: seq<Value>, ip: nat)
    requires ip <= |code| && |stack| <= room
    requires Exec(code, constants, room, stack, ip).Returned?
    ensures |Exec(code, constants, room, stack, ip).rest| < room
    decreases |code| - ip
  {
    match StepAt(code, constants, room, stack, ip)
    case Next(s, j) =>
      ExecStaysInRoom(code, constants, room, s, j);
    case Exit(_, _) =>
    case Stuck(_) =>
  }

  /** The only program compile emits, a lone OP_RETURN, returns the top of
      the stack if there is one and underflows otherwise. */
  lemma LoneReturn(constants: seq<Value>, room: nat, stack: seq<Value>)
    ensures Exec([OpReturn], constants, room, stack, 0)
      == if stack == [] then Undefined(StackUnderflow) else Returned(stack[|stack| - 1], stack[..|stack| - 1])
  {
    assert StepAt([OpReturn], constants, room, stack, 0).Exit? || StepAt([OpReturn], constants, room, stack, 0).Stuck?;
  }

  /** Two constants and a subtraction: the first constant pushed is the
      left operand. */
  lemma SubtractionOrder(x: Number, y: Number, room: nat)
    requires room >= 2
    ensures Exec([OpConstant, 0, OpConstant, 1, OpSubtract, OpReturn], [NumberVal(x), NumberVal(y)], room, [], 0)
      == Returned(NumberVal(Sub(x, y)), [])
  {
    var code: seq<byte> := [OpConstant, 0, OpConstant, 1, OpSubtract, OpReturn];
    var constants := [NumberVal(x), NumberVal(y)];
    var difference := NumberVal(Sub(x, y));
    StepConstant(code, constants, room, [], 0);
    assert Exec(code, constants, room, [], 0) == Exec(code, constants, room, [NumberVal(x)], 2);
    StepConstant(code, constants, room, [NumberVal(x)], 2);
    assert Exec(code, constants, room, [NumberVal(x)], 2) == Exec(code, constants, room, [NumberVal(x), NumberVal(y)], 4);
    StepBinary(code, constants, room, [], NumberVal(x), NumberVal(y), 4);
    assert [] + [NumberVal(x), NumberVal(y)] == [NumberVal(x), NumberVal(y)];
    assert Exec(code, constants, room, [NumberVal(x), NumberVal(y)], 4) == Exec(code, constants, room, [difference], 5);
    StepReturn(code, constants, room, [], difference, 5);
    assert [] + [difference] == [difference];
  }

  // ---------------------------------------------------------------------
  // The machine

  /** The VM: a fixed array of `stack.Length` slots (STACK_MAX) of which the
      first `stackTop` are in use, the chunk being run and the index of the
      next byte to read in its code. */
  class VM {
    const stack: array<Value>
    var stackTop: nat
    var chunk: Chunk?
    var ip: nat

    ghost predicate Valid()
      reads this
    {
      stackTop <= stack.Length
    }

    /** The values on the stack, bottom first. */
    ghost function Stack(): seq<Value>
      reads this, stack
      requires Valid()
    {
      stack[..stackTop]
    }

    /** A chunk is installed, `ip` lies within its code, and the stack is
        not one of the chunk's buffers. */
    ghost predicate Running()
      reads this, chunk, if chunk != null then chunk.Repr else {}
    {
      && Valid()
      && chunk != null && chunk.Valid()
      && stack !in chunk.Repr
      && ip <= chunk.count
    }

    ghost function Code(): seq<byte>
      reads this, chunk, if chunk != null then chunk.Repr else {}
      requires Running()
    {
      chunk.Code()
    }

    ghost function Constants(): seq<Value>
      reads this, chunk, if chunk != null then chunk.Repr else {}
      requires Running()
    {
      chunk.Constants()
    }

    /** init_vm, with the stack of `stackMax` slots the VM struct embeds. */
    constructor Init(stackMax: nat)
      ensures Valid() && fresh(stack) && stack.Length == stackMax
      ensures Stack() == [] && chunk == null
    {
      stack := new Value[stackMax](_ => NilVal);
      chunk := null;
      ip := 0;
      stackTop := 0;
      new;
      ResetStack();
    }

    /** reset_stack: the stack becomes empty. */
    method ResetStack()
      requires stackTop <= stack.Length
      modifies this
      ensures Valid() && Stack() == [] && stackTop == 0
      ensures chunk == old(chunk) && ip == old(ip)
    {
      stackTop := 0;
    }

    /** push: store `value` in the slot at stack_top and move stack_top up.
        The source does not check for a full stack; callers must. */
    method Push(value: Value)
      requires Valid() && stackTop < stack.Length
      modifies this, stack
      ensures Valid() && stackTop == old(stackTop) + 1
      ensures Stack() == old(Stack()) + [value]
      ensures chunk == old(chunk) && ip == old(ip)
    {
      stack[stackTop] := value;
      stackTop := stackTop + 1;
    }

    /** pop: move stack_top down and return the value there. The source does
        not check for an empty stack; callers must. */
    method Pop() returns (value: Value)
      requires Valid() && 0 < stackTop
      modifies this
      ensures Valid() && stackTop == old(stackTop) - 1
      ensures old(Stack()) == Stack() + [value]
      ensures chunk == old(chunk) && ip == old(ip)
    {
      stackTop := stackTop - 1;
      value := stack[stackTop];
    }

    /** A push followed by a pop gives back the pushed value and leaves the
        stack as it was. */
    method PushThenPop(value: Value) returns (popped: Value)
      requires Valid() && stackTop < stack.Length
      modifies this, stack
      ensures popped == value && stackTop == old(stackTop) && Stack() == old(Stack())
    {
      Push(value);
      popped := Pop();
    }

    /** The OP_CONSTANT case, with READ_CONSTANT, for the opcode at `at`. */
    method ConstantOp(at: nat) returns (halt: Option<Halt>)
      requires Running() && ip == at + 1 && at < |Code()| && Code()[at] == OpConstant
      modifies this, stack
      ensures Running() && chunk == old(chunk)
      ensures var r := StepAt(Code(), Constants(), stack.Length, old(Stack()), at);
        match halt
        case None => r == Next(Stack(), ip)
        case Some(h) => r.Stuck? && h == Undefined(r.fault)
    {
      if ip >= chunk.count {
        return Some(Undefined(CodeOverrun));
      }
      var index := chunk.code[ip];
      ip := ip + 1;
      if index as int >= chunk.constants.count {
        return Some(Undefined(ConstantOutOfRange));
      }
      if stackTop >= stack.Length {
        return Some(Undefined(StackOverflow));
      }
      Push(chunk.constants.values[index]);
      halt := None;
    }

    /** BINARY_OP for the binary opcode `op` at `at`. */
    method BinaryOp(op: byte, at: nat) returns (halt: Option<Halt>)
      requires Running() && ip == at + 1 && at < |Code()| && Code()[at] == op && IsBinary(op)
      modifies this, stack
      ensures Running() && chunk == old(chunk)
      ensures var r := StepAt(Code(), Constants(), stack.Length, old(Stack()), at);
        match halt
        case None => r == Next(Stack(), ip)
        case Some(h) => r.Stuck? && h == Undefined(r.fault)
    {
      if stackTop < 2 {
        return Some(Undefined(StackUnderflow));
      }
      var b := Pop();
      var a := Pop();
      Push(NumberVal(Arithmetic(op, AsNumber(a), AsNumber(b))));
      halt := None;
    }

    /** The OP_NEGATE case, for the opcode at `at`. */
    method NegateOp(at: nat) returns (halt: Option<Halt>)
      requires Running() && ip == at + 1 && at < |Code()| && Code()[at] == OpNegate
      modifies this, stack
      ensures Running() && chunk == old(chunk)
      ensures var r := StepAt(Code(), Constants(), stack.Length, old(Stack()), at);
        match halt
        case None => r == Next(Stack(), ip)
        case Some(h) => r.Stuck? && h == Undefined(r.fault)
    {
      if stackTop < 1 {
        return Some(Undefined(StackUnderflow));
      }
      var a := Pop();
      Push(NumberVal(Neg(AsNumber(a))));
      halt := None;
    }

    /** The OP_RETURN case, for the opcode at `at`: pop the result and stop. */
    method ReturnOp(at: nat) returns (halt: Halt)
      requires Running() && ip == at + 1 && at < |Code()| && Code()[at] == OpReturn
      modifies this
      ensures Running() && chunk == old(chunk)
      ensures var r := StepAt(Code(), Constants(), stack.Length, old(Stack()), at);
        || (r.Exit? && halt == Returned(r.value, r.rest) && Stack() == r.rest)
        || (r.Stuck? && halt == Undefined(r.fault))
    {
      if stackTop < 1 {
        return Undefined(StackUnderflow);
      }
      var value := Pop();
      halt := Returned(value, stack[..stackTop]);
    }

    /** One turn of run's loop: READ_BYTE and the switch over it. */
    method Dispatch() returns (halt: Option<Halt>)
      requires Running()
      modifies this, stack
      ensures Running() && chunk == old(chunk)
      ensures var r := StepAt(Code(), Constants(), stack.Length, old(Stack()), old(ip));
        match halt
        case None => r == Next(Stack(), ip)
        case Some(h) =>
          || (r.Exit? && h == Returned(r.value, r.rest) && Stack() == r.rest)
          || (r.Stuck? && h == Undefined(r.fault))
    {
      if ip >= chunk.count {
        return Some(Undefined(CodeOverrun));
      }
      var at := ip;
      var instruction := chunk.code[ip];
      ip := ip + 1;
      if instruction == OpConstant {
        halt := ConstantOp(at);
      } else if IsBinary(instruction) {
        halt := BinaryOp(instruction, at);
      } else if instruction == OpNegate {
        halt := NegateOp(at);
      } else if instruction == OpReturn {
        var h := ReturnOp(at);
        halt := Some(h);
      } else {
        halt := None;
      }
    }

    /** run: dispatch until OP_RETURN or a fault. What it does is Exec from
        where it started. */
    method Run() returns (halt: Halt)
      requires Running()
      modifies this, stack
      ensures Running() && chunk == old(chunk)
      ensures halt == Exec(Code(), Constants(), stack.Length, old(Stack()), old(ip))
      ensures halt.Returned? ==> Stack() == halt.rest
    {
      var done := false;
      halt := Undefined(CodeOverrun);
      while !done
        invariant Running() && chunk == old(chunk)
        invariant !done ==>
          Exec(Code(), Constants(), stack.Length, Stack(), ip) == Exec(Code(), Constants(), stack.Length, old(Stack()), old(ip))
        invariant done ==> halt == Exec(Code(), Constants(), stack.Length, old(Stack()), old(ip))
        invariant done && halt.Returned? ==> Stack() == halt.rest
        decreases !done, chunk.count - ip
      {
        var h := Dispatch();
        match h
        case None =>
        case Some(last) =>
          done := true;
          halt := last;
      }
    }

    /** The compiling half of interpret: a fresh chunk filled by the
        global `parser` from `source`. It holds the lone OP_RETURN compile
        emits, and `ok` says whether compile reported nothing. */
    method CompileFresh(source: seq<char>, parser: Parser) returns (compiled: Chunk, ok: bool)
      requires IsCString(source)
      modifies parser
      ensures compiled.Valid() && fresh(compiled.Repr)
      ensures compiled.Code() == [OpReturn] && compiled.Constants() == []
      ensures ok <==> CompileDiagnostics(source) == []
      ensures parser.diagnostics == old(parser.diagnostics) + CompileDiagnostics(source)
    {
      ghost var start := Reset(parser.current, parser.previous, parser.diagnostics);
      compiled := new Chunk.Init();
      ok := parser.Compile(source, compiled);
      CompileStateMeaning(source, start);
    }

    /** The running half of interpret: install `compiled` with `ip` at its
        first byte, run it, then free it. */
    method RunChunk(compiled: Chunk) returns (halt: Halt)
      requires Valid() && compiled.Valid() && stack !in compiled.Repr
      modifies this, stack, compiled.Repr
      ensures Valid()
      ensures halt == Exec(old(compiled.Code()), old(compiled.Constants()), stack.Length, old(Stack()), 0)
      ensures halt.Returned? ==> Stack() == halt.rest
    {
      chunk := compiled;
      ip := 0;
      halt := Run();
      compiled.Free();
    }

    /** interpret: compile `source` into a fresh chunk with the global
        `parser`; if that fails, report a compile error without running
        anything; otherwise run the chunk from its first byte. */
    method Interpret(source: seq<char>, parser: Parser) returns (outcome: Outcome)
      requires IsCString(source) && Valid()
      modifies this, stack, parser
      ensures Valid()
      ensures parser.diagnostics == old(parser.diagnostics) + CompileDiagnostics(source)
      ensures outcome == Finished(InterpretCompileError) <==> CompileDiagnostics(source) != []
      ensures CompileDiagnostics(source) != [] ==> Stack() == old(Stack())
      ensures CompileDiagnostics(source) == [] ==>
        if old(stackTop) == 0 then outcome == Failed(StackUnderflow)
        else outcome == Finished(InterpretOk) && Stack() == old(Stack())[..old(stackTop) - 1]
      ensures outcome != Finished(InterpretRuntimeError)
    {
      var compiled, ok := CompileFresh(source, parser);
      if !ok {
        compiled.Free();
        return Finished(InterpretCompileError);
      }
      LoneReturn([], stack.Length, Stack());
      var halt := RunChunk(compiled);
      match halt
      case Returned(_, _) =>
        outcome := Finished(InterpretOk);
      case Undefined(f) =>
        outcome := Failed(f);
    }
  }
}

/**
 * The opcode handlers and the dispatcher. Each handler pops its operands from
 * the context's stack, computes a word, pushes it and moves the pc, returning
 * at the first failing stack operation; each is proved to leave exactly the
 * state and outcome that `Semantics.Exec` gives.
 */
module Opcodes {
  import opened Words
  import opened WordOps
  import opened Results
  import opened WordStack
  import opened ByteMemory
  import opened Context
  import opened Instructions
  import opened Semantics

  /** One round of EXP's loop keeps the loop invariant, stated on words. */
  lemma ExpLoopRound(result: Word, basePow: Word, exp: Word, target: nat)
    requires (result * Pow(basePow, exp)) % WORD_MODULUS == target
    ensures var result' := if exp % 2 == 1 then Mul(result, basePow) else result;
      (result' * Pow(Mul(basePow, basePow), exp / 2)) % WORD_MODULUS == target
  {
    ExpRound(result, basePow, exp, WORD_MODULUS);
  }

  /**
   * EXP's square-and-multiply loop: multiply the result by the current power
   * of the base for each set bit of the exponent, squaring the power as the
   * exponent is shifted right.
   */
  method ExpBySquaring(base: Word, exponent: Word) returns (r: Word)
    ensures r == Pow(base, exponent) % WORD_MODULUS
  {
    ExpShortcuts(base, exponent);
    if exponent == 0 {
      return 1;
    } else if base == 0 {
      return 0;
    }
    ghost var target := Pow(base, exponent) % WORD_MODULUS;
    var result: Word := 1;
    var exp: Word := exponent;
    var basePow: Word := base;
    assert result * Pow(basePow, exp) == Pow(base, exponent);
    while exp != 0
      invariant (result * Pow(basePow, exp)) % WORD_MODULUS == target
      decreases exp
    {
      ExpLoopRound(result, basePow, exp, target);
      if exp % 2 == 1 {
        result := Mul(result, basePow);
      }
      basePow := Mul(basePow, basePow);
      exp := exp / 2;
    }
    assert result * Pow(basePow, exp) == result;
    ModUnique(result, 0, result, WORD_MODULUS);
    r := result;
  }

  method HandleStop(ctx: ExecutionContext) returns (r: Result<(), InstructionError>)
    modifies ctx
    ensures Outcome(ctx.State(), r) == Exec(Stop, old(ctx.State()))
  {
    ctx.Stop();
    ctx.SetPc(ctx.pc + 1);
    r := Ok(());
  }

  /** The word a two-operand handler pushes: EXP by its squaring loop, the others directly. */
  method BinaryResult(op: BinaryOp, a: Word, b: Word) returns (result: Word)
    ensures result == Apply(op, a, b)
  {
    if op == ExpOp {
      result := ExpBySquaring(a, b);
    } else {
      result := Apply(op, a, b);
    }
  }

  /** ADD, MUL, SUB, DIV, MOD, EXP, LT, GT, EQ, AND, OR and XOR. */
  method HandleBinary(op: BinaryOp, ctx: ExecutionContext) returns (r: Result<(), InstructionError>)
    modifies ctx, ctx.stack
    ensures Outcome(ctx.State(), r) == Exec(Binary(op), old(ctx.State()))
  {
    ghost var m := ctx.State();
    assert Exec(Binary(op), m) == ExecBinary(op, m);
    var b := ctx.stack.Pop();
    if b.Err? {
      return Err(StackErr(b.error));
    }
    assert ctx.State() == m.(stack := m.stack[..|m.stack| - 1]);
    var a := ctx.stack.Pop();
    if a.Err? {
      return Err(StackErr(a.error));
    }
    ghost var popped := m.(stack := m.stack[..|m.stack| - 2]);
    assert ctx.State() == popped;
    var result := BinaryResult(op, a.value, b.value);
    assert result == Apply(op, m.stack[|m.stack| - 2], m.stack[|m.stack| - 1]);
    assert ExecBinary(op, m) == PushOnto(popped, result, m.pc + 1);
    var pushed := ctx.stack.Push(result);
    if pushed.Err? {
      return Err(StackErr(pushed.error));
    }
    ctx.SetPc(ctx.pc + 1);
    r := Ok(());
  }

  /** ISZERO and NOT. */
  method HandleUnary(uop: UnaryOp, ctx: ExecutionContext) returns (r: Result<(), InstructionError>)
    modifies ctx, ctx.stack
    ensures Outcome(ctx.State(), r) == Exec(Unary(uop), old(ctx.State()))
  {
    var a := ctx.stack.Pop();
    if a.Err? {
      return Err(StackErr(a.error));
    }
    var pushed := ctx.stack.Push(ApplyUnary(uop, a.value));
    if pushed.Err? {
      return Err(StackErr(pushed.error));
    }
    ctx.SetPc(ctx.pc + 1);
    r := Ok(());
  }

  method HandlePop(ctx: ExecutionContext) returns (r: Result<(), InstructionError>)
    modifies ctx, ctx.stack
    ensures Outcome(ctx.State(), r) == Exec(Pop, old(ctx.State()))
  {
    var popped := ctx.stack.Pop();
    if popped.Err? {
      return Err(StackErr(popped.error));
    }
    ctx.SetPc(ctx.pc + 1);
    r := Ok(());
  }

  /** DUP1 to DUP4: push a copy of `peek(k - 1)`. */
  method HandleDup(k: nat, ctx: ExecutionContext) returns (r: Result<(), InstructionError>)
    requires 1 <= k <= 4
    modifies ctx, ctx.stack
    ensures Outcome(ctx.State(), r) == Exec(Dup(k), old(ctx.State()))
  {
    var value := ctx.stack.Peek(k - 1);
    if value.Err? {
      return Err(StackErr(value.error));
    }
    var pushed := ctx.stack.Push(value.value);
    if pushed.Err? {
      return Err(StackErr(pushed.error));
    }
    ctx.SetPc(ctx.pc + 1);
    r := Ok(());
  }

  /** SWAP1 to SWAP4. */
  method HandleSwap(k: nat, ctx: ExecutionContext) returns (r: Result<(), InstructionError>)
    requires 1 <= k <= 4
    modifies ctx, ctx.stack
    ensures Outcome(ctx.State(), r) == Exec(Swap(k), old(ctx.State()))
  {
    var swapped := ctx.stack.Swap(k);
    if swapped.Err? {
      return Err(StackErr(swapped.error));
    }
    ctx.SetPc(ctx.pc + 1);
    r := Ok(());
  }

  method HandleMload(ctx: ExecutionContext) returns (r: Result<(), InstructionError>)
    modifies ctx, ctx.stack
    ensures Outcome(ctx.State(), r) == Exec(Mload, old(ctx.State()))
  {
    var offset := ctx.stack.Pop();
    if offset.Err? {
      return Err(StackErr(offset.error));
    }
    var value := ctx.memory.Load(offset.value);
    // A load never fails, so the value is always there.
    var pushed := ctx.stack.Push(value.value);
    if pushed.Err? {
      return Err(StackErr(pushed.error));
    }
    ctx.SetPc(ctx.pc + 1);
    r := Ok(());
  }

  method HandleMstore(ctx: ExecutionContext) returns (r: Result<(), InstructionError>)
    modifies ctx, ctx.stack, ctx.memory
    ensures Outcome(ctx.State(), r) == Exec(Mstore, old(ctx.State()))
  {
    var offset := ctx.stack.Pop();
    if offset.Err? {
      return Err(StackErr(offset.error));
    }
    var value := ctx.stack.Pop();
    if value.Err? {
      return Err(StackErr(value.error));
    }
    // A store never fails, so there is no error to pass on.
    var stored := ctx.memory.Store(offset.value, value.value);
    ctx.SetPc(ctx.pc + 1);
    r := Ok(());
  }

  method HandleJump(ctx: ExecutionContext) returns (r: Result<(), InstructionError>)
    modifies ctx, ctx.stack
    ensures Outcome(ctx.State(), r) == Exec(Jump, old(ctx.State()))
  {
    var dest := ctx.stack.Pop();
    if dest.Err? {
      return Err(StackErr(dest.error));
    }
    if dest.value >= |ctx.code| {
      return Err(InvalidJump);
    }
    if ctx.code[dest.value] != JUMPDEST {
      return Err(InvalidJump);
    }
    ctx.SetPc(dest.value);
    r := Ok(());
  }

  method HandleJumpi(ctx: ExecutionContext) returns (r: Result<(), InstructionError>)
    modifies ctx, ctx.stack
    ensures Outcome(ctx.State(), r) == Exec(Jumpi, old(ctx.State()))
  {
    ghost var m := ctx.State();
    assert Exec(Jumpi, m) == ExecJumpi(m);
    var dest := ctx.stack.Pop();
    if dest.Err? {
      return Err(StackErr(dest.error));
    }
    var condition := ctx.stack.Pop();
    if condition.Err? {
      return Err(StackErr(condition.error));
    }
    assert ctx.State() == m.(stack := m.stack[..|m.stack| - 2]);
    if condition.value != 0 {
      if dest.value >= |ctx.code| {
        return Err(InvalidJump);
      }
      if ctx.code[dest.value] != JUMPDEST {
        return Err(InvalidJump);
      }
      ctx.SetPc(dest.value);
    } else {
      ctx.SetPc(ctx.pc + 1);
    }
    r := Ok(());
  }

  method HandleJumpdest(ctx: ExecutionContext) returns (r: Result<(), InstructionError>)
    modifies ctx
    ensures Outcome(ctx.State(), r) == Exec(Jumpdest, old(ctx.State()))
  {
    ctx.SetPc(ctx.pc + 1);
    r := Ok(());
  }

  method HandlePc(ctx: ExecutionContext) returns (r: Result<(), InstructionError>)
    modifies ctx, ctx.stack
    ensures Outcome(ctx.State(), r) == Exec(Pc, old(ctx.State()))
  {
    var pushed := ctx.stack.Push(WordOf(ctx.pc));
    if pushed.Err? {
      return Err(StackErr(pushed.error));
    }
    ctx.SetPc(ctx.pc + 1);
    r := Ok(());
  }

  /**
   * The word PUSHn makes of its `n` immediate bytes: PUSH1 takes the byte
   * itself, PUSH2 and PUSH32 decode the bytes, PUSH3 to PUSH8 decode them
   * right-aligned in 32 zero bytes.
   */
  method ImmediateValue(bytes: seq<Byte>) returns (value: Word)
    requires |bytes| <= 8 || |bytes| == 32
    requires |bytes| >= 1
    ensures value == FromBigEndian(bytes)
  {
    var n := |bytes|;
    Pow2Monotone(8 * n, 256);
    if n == 1 {
      assert bytes[..0] == [];
      value := bytes[0];
    } else if n == 2 || n == 32 {
      value := FromBigEndian(bytes);
    } else {
      var padded := Zeros(32 - n) + bytes;
      FromBigEndianLeadingZeros(32 - n, bytes);
      value := FromBigEndian(padded);
    }
  }

  /** PUSH1 to PUSH8 and PUSH32, reading the immediates that follow the opcode. */
  method HandlePush(n: nat, ctx: ExecutionContext) returns (r: Result<(), InstructionError>)
    requires WellFormed(Push(n))
    modifies ctx, ctx.stack
    ensures Outcome(ctx.State(), r) == Exec(Push(n), old(ctx.State()))
  {
    ghost var m := ctx.State();
    assert Exec(Push(n), m) == PushOnto(m, Immediate(m.code, m.pc + 1, n), m.pc + n + 1);
    var bytes := ctx.ReadCodeFrom(ctx.pc + 1, n);
    var value := ImmediateValue(bytes);
    assert value == Immediate(m.code, m.pc + 1, n);
    var pushed := ctx.stack.Push(value);
    if pushed.Err? {
      return Err(StackErr(pushed.error));
    }
    ctx.SetPc(ctx.pc + n + 1);
    r := Ok(());
  }

  /** PUSHn as written: `read_code(n)` starts at the pc, which holds the opcode itself. */
  method HandlePushAsWritten(n: nat, ctx: ExecutionContext) returns (r: Result<(), InstructionError>)
    requires WellFormed(Push(n))
    modifies ctx, ctx.stack
    ensures Outcome(ctx.State(), r) == ExecPushAsWritten(n, old(ctx.State()))
  {
    var bytes := ctx.ReadCode(n);
    var value := ImmediateValue(bytes);
    var pushed := ctx.stack.Push(value);
    if pushed.Err? {
      return Err(StackErr(pushed.error));
    }
    ctx.SetPc(ctx.pc + n + 1);
    r := Ok(());
  }

  /** CALLER and CALLVALUE, which push 0 until a transaction context exists. */
  method HandleZeroStub(i: Instruction, ctx: ExecutionContext) returns (r: Result<(), InstructionError>)
    requires i == Caller || i == CallValue
    modifies ctx, ctx.stack
    ensures Outcome(ctx.State(), r) == Exec(i, old(ctx.State()))
  {
    var pushed := ctx.stack.Push(0);
    if pushed.Err? {
      return Err(StackErr(pushed.error));
    }
    ctx.SetPc(ctx.pc + 1);
    r := Ok(());
  }

  method HandleCodesize(ctx: ExecutionContext) returns (r: Result<(), InstructionError>)
    modifies ctx, ctx.stack
    ensures Outcome(ctx.State(), r) == Exec(CodeSize, old(ctx.State()))
  {
    var pushed := ctx.stack.Push(WordOf(|ctx.code|));
    if pushed.Err? {
      return Err(StackErr(pushed.error));
    }
    ctx.SetPc(ctx.pc + 1);
    r := Ok(());
  }

  /**
   * `execute_opcode`: run the handler of a dispatched byte, or fail with
   * `InvalidOpcode`; the stack bound is kept either way.
   */
  method ExecuteOpcode(opcode: Byte, ctx: ExecutionContext) returns (r: Result<(), InstructionError>)
    requires !Decode(opcode).NotModelled?
    modifies ctx, ctx.stack, ctx.memory
    ensures Outcome(ctx.State(), r) == Step(opcode, old(ctx.State()))
    ensures old(ctx.State().Valid()) ==> ctx.State().Valid()
  {
    match Decode(opcode) {
      case Invalid =>
        r := Err(InvalidOpcode);
      case Known(i) =>
        EncodeDecode(opcode);
        if ctx.State().Valid() {
          ExecPreservesValid(i, ctx.State());
        }
        match i {
          case Stop => r := HandleStop(ctx);
          case Binary(op) => r := HandleBinary(op, ctx);
          case Unary(uop) => r := HandleUnary(uop, ctx);
          case Pop => r := HandlePop(ctx);
          case Dup(k) => r := HandleDup(k, ctx);
          case Swap(k) => r := HandleSwap(k, ctx);
          case Mload => r := HandleMload(ctx);
          case Mstore => r := HandleMstore(ctx);
          case Jump => r := HandleJump(ctx);
          case Jumpi => r := HandleJumpi(ctx);
          case Jumpdest => r := HandleJumpdest(ctx);
          case Pc => r := HandlePc(ctx);
          case Push(n) => r := HandlePush(n, ctx);
          case Caller => r := HandleZeroStub(i, ctx);
          case CallValue => r := HandleZeroStub(i, ctx);
          case CodeSize => r := HandleCodesize(ctx);
        }
    }
  }
}

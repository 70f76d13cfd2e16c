/**
 * The effect of one instruction on the state of a context, as a function from
 * state to state and outcome. The opcode handlers are proved to compute
 * exactly this; the lemmas below state what the handlers promise about it.
 */
module Semantics {
  import opened Words
  import opened WordOps
  import opened Results
  import opened WordStack
  import opened ByteMemory
  import opened Context
  import opened CallData
  import opened Instructions

  datatype InstructionError =
    | InvalidOpcode
    | StackErr(stackError: StackError)
    | MemoryErr(memoryError: MemoryError)
    | InvalidJump

  /** The state a handler leaves behind, with what it returned. */
  datatype Outcome = Outcome(state: ContextState, result: Result<(), InstructionError>)

  /** The word a two-operand opcode pushes; `b` was on top, `a` just below it. */
  function Apply(op: BinaryOp, a: Word, b: Word): Word
  {
    match op
    case AddOp => Add(a, b)
    case MulOp => Mul(a, b)
    case SubOp => Sub(a, b)
    case DivOp => Div(a, b)
    case ModOp => Mod(a, b)
    case ExpOp => Exp(a, b)
    case LtOp => Lt(a, b)
    case GtOp => Gt(a, b)
    case EqOp => Eq(a, b)
    case AndOp => And(a, b)
    case OrOp => Or(a, b)
    case XorOp => Xor(a, b)
  }

  /** The word a one-operand opcode pushes. */
  function ApplyUnary(uop: UnaryOp, a: Word): Word
  {
    match uop
    case IsZeroOp => IsZero(a)
    case NotOp => Not(a)
  }

  /** A machine-size count (a pc or a code length) as a word. */
  function WordOf(n: nat): Word
  {
    n % WORD_MODULUS
  }

  /** A jump to `dest` is allowed when it lands inside the code on a JUMPDEST byte. */
  predicate ValidJumpDest(code: seq<Byte>, dest: Word)
  {
    dest < |code| && code[dest] == JUMPDEST
  }

  /** The big-endian value of the `n` code bytes from `start`, zero past the end of the code. */
  function Immediate(code: seq<Byte>, start: nat, n: nat): Word
    requires n <= 32
  {
    var v := FromBigEndian(CodeWindow(code, start, n));
    Pow2Monotone(8 * n, 256);
    v
  }

  /** A push of `v` that then moves the pc to `nextPc`; a full stack fails and changes nothing. */
  function PushOnto(m: ContextState, v: Word, nextPc: nat): Outcome
  {
    if |m.stack| >= m.maxDepth then Outcome(m, Err(StackErr(StackOverflow)))
    else Outcome(m.(stack := m.stack + [v], pc := nextPc), Ok(()))
  }

  /** Pops `b` then `a` and pushes `a op b`; a failed pop keeps what was popped before it. */
  function ExecBinary(op: BinaryOp, m: ContextState): Outcome
  {
    var n := |m.stack|;
    if n < 2 then Outcome(m.(stack := []), Err(StackErr(StackUnderflow)))
    else PushOnto(m.(stack := m.stack[..n - 2]), Apply(op, m.stack[n - 2], m.stack[n - 1]), m.pc + 1)
  }

  function ExecUnary(uop: UnaryOp, m: ContextState): Outcome
  {
    var n := |m.stack|;
    if n == 0 then Outcome(m, Err(StackErr(StackUnderflow)))
    else PushOnto(m.(stack := m.stack[..n - 1]), ApplyUnary(uop, m.stack[n - 1]), m.pc + 1)
  }

  /** DUPk: peek at the word `k - 1` below the top and push a copy. */
  function ExecDup(k: nat, m: ContextState): Outcome
    requires k >= 1
  {
    var n := |m.stack|;
    if k - 1 >= n then Outcome(m, Err(StackErr(IndexError)))
    else PushOnto(m, m.stack[n - k], m.pc + 1)
  }

  /** SWAPk: too few words is reported as `StackOverflow`. */
  function ExecSwap(k: nat, m: ContextState): Outcome
  {
    if k + 1 > |m.stack| then Outcome(m, Err(StackErr(StackOverflow)))
    else Outcome(m.(stack := Swapped(m.stack, k), pc := m.pc + 1), Ok(()))
  }

  /** MLOAD: pop the offset, push the word loaded from memory (memory itself is not grown). */
  function ExecMload(m: ContextState): Outcome
  {
    var n := |m.stack|;
    if n == 0 then Outcome(m, Err(StackErr(StackUnderflow)))
    else PushOnto(m.(stack := m.stack[..n - 1]), LoadWord(m.memory, m.stack[n - 1]), m.pc + 1)
  }

  /** MSTORE: pop the offset (top), then the value, and store the value at the offset. */
  function ExecMstore(m: ContextState): Outcome
  {
    var n := |m.stack|;
    if n < 2 then Outcome(m.(stack := []), Err(StackErr(StackUnderflow)))
    else
      var offset, value := m.stack[n - 1], m.stack[n - 2];
      Outcome(m.(stack := m.stack[..n - 2], memory := StoreWord(m.memory, offset, value), pc := m.pc + 1), Ok(()))
  }

  /** JUMP: pop the destination; jump there if it is a JUMPDEST inside the code, else fail. */
  function ExecJump(m: ContextState): Outcome
  {
    var n := |m.stack|;
    if n == 0 then Outcome(m, Err(StackErr(StackUnderflow)))
    else
      var dest := m.stack[n - 1];
      var popped := m.(stack := m.stack[..n - 1]);
      if ValidJumpDest(m.code, dest) then Outcome(popped.(pc := dest), Ok(()))
      else Outcome(popped, Err(InvalidJump))
  }

  /** JUMPI: pop the destination, then the condition; jump as JUMP does only on a nonzero condition. */
  function ExecJumpi(m: ContextState): Outcome
  {
    var n := |m.stack|;
    if n < 2 then Outcome(m.(stack := []), Err(StackErr(StackUnderflow)))
    else
      var dest, condition := m.stack[n - 1], m.stack[n - 2];
      var popped := m.(stack := m.stack[..n - 2]);
      if condition == 0 then Outcome(popped.(pc := m.pc + 1), Ok(()))
      else if ValidJumpDest(m.code, dest) then Outcome(popped.(pc := dest), Ok(()))
      else Outcome(popped, Err(InvalidJump))
  }

  /** PUSHn: push the `n` code bytes that follow the opcode, then skip over them. */
  function ExecPush(n: nat, m: ContextState): Outcome
    requires n <= 32
  {
    PushOnto(m, Immediate(m.code, m.pc + 1, n), m.pc + n + 1)
  }

  /** PUSHn as the handlers are written: the `n` bytes are read from the opcode's own position. */
  function ExecPushAsWritten(n: nat, m: ContextState): Outcome
    requires n <= 32
  {
    PushOnto(m, Immediate(m.code, m.pc, n), m.pc + n + 1)
  }

  /** The effect of a modelled instruction. */
  function Exec(i: Instruction, m: ContextState): Outcome
    requires WellFormed(i)
  {
    match i
    case Stop => Outcome(m.(stopped := true, pc := m.pc + 1), Ok(()))
    case Binary(op) => ExecBinary(op, m)
    case Unary(uop) => ExecUnary(uop, m)
    case Pop =>
      if |m.stack| == 0 then Outcome(m, Err(StackErr(StackUnderflow)))
      else Outcome(m.(stack := m.stack[..|m.stack| - 1], pc := m.pc + 1), Ok(()))
    case Dup(k) => ExecDup(k, m)
    case Swap(k) => ExecSwap(k, m)
    case Mload => ExecMload(m)
    case Mstore => ExecMstore(m)
    case Jump => ExecJump(m)
    case Jumpi => ExecJumpi(m)
    case Jumpdest => Outcome(m.(pc := m.pc + 1), Ok(()))
    case Pc => PushOnto(m, WordOf(m.pc), m.pc + 1)
    case Push(n) => ExecPush(n, m)
    case Caller => PushOnto(m, 0, m.pc + 1)
    case CallValue => PushOnto(m, 0, m.pc + 1)
    case CodeSize => PushOnto(m, WordOf(|m.code|), m.pc + 1)
  }

  /** The dispatcher: decode the byte and run its instruction, or fail with `InvalidOpcode`. */
  function Step(opcode: Byte, m: ContextState): Outcome
    requires !Decode(opcode).NotModelled?
  {
    match Decode(opcode)
    case Invalid => Outcome(m, Err(InvalidOpcode))
    case Known(i) => EncodeDecode(opcode); Exec(i, m)
  }

  // ---------------------------------------------------------------------
  // Properties of a step
  // ---------------------------------------------------------------------

  /** Every byte the dispatcher does not match fails with `InvalidOpcode` and changes nothing. */
  lemma StepUndispatched(opcode: Byte, m: ContextState)
    requires opcode !in DISPATCHED
    ensures !Decode(opcode).NotModelled?
    ensures Step(opcode, m) == Outcome(m, Err(InvalidOpcode))
  {
    InvalidExactlyUndispatched(opcode);
  }

  /** The words an instruction removes from the stack (δ in the Yellow Paper's appendix H). */
  function Delta(i: Instruction): nat
  {
    match i
    case Binary(_) => 2
    case Unary(_) => 1
    case Pop => 1
    case Dup(k) => k
    case Swap(k) => k + 1
    case Mload => 1
    case Mstore => 2
    case Jump => 1
    case Jumpi => 2
    case _ => 0
  }

  /** The words an instruction puts in their place (α in the Yellow Paper's appendix H). */
  function Alpha(i: Instruction): nat
  {
    match i
    case Binary(_) => 1
    case Unary(_) => 1
    case Dup(k) => k + 1
    case Swap(k) => k + 1
    case Mload => 1
    case Pc => 1
    case Push(_) => 1
    case Caller => 1
    case CallValue => 1
    case CodeSize => 1
    case _ => 0
  }

  /**
   * Stack discipline: a successful instruction had at least δ words, leaves
   * exactly n - δ + α, and does not touch the words below the δ it used.
   * Apart from jumps, it succeeds exactly when the stack has δ words and room for the result.
   */
  lemma ExecStackEffect(i: Instruction, m: ContextState)
    requires WellFormed(i) && m.Valid()
    ensures var o, n := Exec(i, m), |m.stack|;
      o.result.Ok? ==>
        n >= Delta(i) && |o.state.stack| == n - Delta(i) + Alpha(i)
        && o.state.stack[..n - Delta(i)] == m.stack[..n - Delta(i)]
    ensures !i.Jump? && !i.Jumpi? ==>
      (Exec(i, m).result.Ok? <==> |m.stack| >= Delta(i) && |m.stack| - Delta(i) + Alpha(i) <= m.maxDepth)
  {
    var n := |m.stack|;
    match i
    case Dup(k) =>
      if n >= k && n < m.maxDepth {
        assert Exec(i, m).state.stack[..n - k] == m.stack[..n - k];
      }
    case Swap(k) =>
      if n >= k + 1 {
        SwappedExchanges(m.stack, k);
        assert Exec(i, m).state.stack[..n - (k + 1)] == m.stack[..n - (k + 1)];
      }
    case _ =>
  }

  /** A step keeps the stack within its bound. */
  lemma ExecPreservesValid(i: Instruction, m: ContextState)
    requires WellFormed(i) && m.Valid()
    ensures Exec(i, m).state.Valid()
  {
    if i.Swap? && i.k + 1 <= |m.stack| {
      SwappedExchanges(m.stack, i.k);
    }
  }

  /** The parts of the state a step other than STOP and MSTORE never touches, and a failure keeps the pc. */
  predicate KeepsFrame(m: ContextState, o: Outcome)
  {
    var s := o.state;
    s.code == m.code && s.calldata == m.calldata && s.maxDepth == m.maxDepth
    && s.returnData == m.returnData && s.memory == m.memory && s.stopped == m.stopped
    && (o.result.Err? ==> s.pc == m.pc)
  }

  lemma PushOntoKeepsFrame(m: ContextState, v: Word, nextPc: nat)
    ensures KeepsFrame(m, PushOnto(m, v, nextPc))
  {
  }

  lemma StackOpsKeepFrame(i: Instruction, m: ContextState)
    requires WellFormed(i) && (i.Binary? || i.Unary? || i.Dup? || i.Swap? || i.Mload? || i.Pop?)
    ensures KeepsFrame(m, Exec(i, m))
  {
    var n := |m.stack|;
    match i
    case Binary(op) =>
      if n >= 2 {
        PushOntoKeepsFrame(m.(stack := m.stack[..n - 2]), Apply(op, m.stack[n - 2], m.stack[n - 1]), m.pc + 1);
      }
    case Unary(uop) =>
      if n >= 1 {
        PushOntoKeepsFrame(m.(stack := m.stack[..n - 1]), ApplyUnary(uop, m.stack[n - 1]), m.pc + 1);
      }
    case Mload =>
      if n >= 1 {
        PushOntoKeepsFrame(m.(stack := m.stack[..n - 1]), LoadWord(m.memory, m.stack[n - 1]), m.pc + 1);
      }
    case Dup(k) =>
      if k - 1 < n {
        PushOntoKeepsFrame(m, m.stack[n - k], m.pc + 1);
      }
    case Swap(k) =>
    case Pop =>
  }

  lemma JumpsKeepFrame(m: ContextState)
    ensures KeepsFrame(m, ExecJump(m)) && KeepsFrame(m, ExecJumpi(m))
  {
  }

  lemma PushKeepsFrame(n: nat, m: ContextState)
    requires n <= 32
    ensures KeepsFrame(m, ExecPush(n, m))
  {
    PushOntoKeepsFrame(m, Immediate(m.code, m.pc + 1, n), m.pc + n + 1);
  }

  lemma FlowOpsKeepFrame(i: Instruction, m: ContextState)
    requires WellFormed(i) && (i.Jump? || i.Jumpi? || i.Jumpdest? || i.Pc? || i.Push? || i.Caller? || i.CallValue? || i.CodeSize?)
    ensures KeepsFrame(m, Exec(i, m))
  {
    match i
    case Jump => JumpsKeepFrame(m);
    case Jumpi => JumpsKeepFrame(m);
    case Jumpdest =>
    case Pc => PushOntoKeepsFrame(m, WordOf(m.pc), m.pc + 1);
    case Push(n) => PushKeepsFrame(n, m);
    case Caller => PushOntoKeepsFrame(m, 0, m.pc + 1);
    case CallValue => PushOntoKeepsFrame(m, 0, m.pc + 1);
    case CodeSize => PushOntoKeepsFrame(m, WordOf(|m.code|), m.pc + 1);
  }

  /**
   * What a step never touches: code, calldata, bound and return data; memory
   * changes only on MSTORE; only STOP sets the stop flag; and a failed step
   * leaves the pc where it was.
   */
  lemma ExecFrame(i: Instruction, m: ContextState)
    requires WellFormed(i)
    ensures var s := Exec(i, m).state;
      s.code == m.code && s.calldata == m.calldata && s.maxDepth == m.maxDepth
      && s.returnData == m.returnData
      && (!i.Mstore? ==> s.memory == m.memory)
      && s.stopped == (m.stopped || i.Stop?)
    ensures Exec(i, m).result.Err? ==> Exec(i, m).state.pc == m.pc
  {
    if i.Binary? || i.Unary? || i.Dup? || i.Swap? || i.Mload? || i.Pop? {
      StackOpsKeepFrame(i, m);
    } else if !i.Stop? && !i.Mstore? {
      FlowOpsKeepFrame(i, m);
    }
  }

  /** Every successful step other than a jump moves the pc forward past the instruction and its immediates. */
  lemma ExecAdvancesPc(i: Instruction, m: ContextState)
    requires WellFormed(i) && !i.Jump? && !i.Jumpi?
    ensures Exec(i, m).result.Ok? ==> Exec(i, m).state.pc == m.pc + 1 + (if i.Push? then i.n else 0)
  {
  }

  /** A two-operand opcode pushes `a op b` for the top two words, or underflows leaving an empty stack. */
  lemma ExecBinaryEffect(op: BinaryOp, m: ContextState)
    requires m.Valid()
    ensures var o, n := Exec(Binary(op), m), |m.stack|;
      (n >= 2 ==> o.result == Ok(()) && o.state.stack == m.stack[..n - 2] + [Apply(op, m.stack[n - 2], m.stack[n - 1])])
      && (n < 2 ==> o.result == Err(StackErr(StackUnderflow)) && o.state.stack == [])
  {
  }

  /** Comparisons and ISZERO push 1 exactly when their relation holds, and 0 otherwise. */
  lemma ComparisonsPushFlags(a: Word, b: Word)
    ensures Apply(LtOp, a, b) == (if a < b then 1 else 0)
    ensures Apply(GtOp, a, b) == (if a > b then 1 else 0)
    ensures Apply(EqOp, a, b) == (if a == b then 1 else 0)
    ensures ApplyUnary(IsZeroOp, a) == (if a == 0 then 1 else 0)
    ensures ApplyUnary(NotOp, a) == WORD_MODULUS - 1 - a
  {
    WordBitwiseLaws(a, b);
  }

  /** DUPk copies the k-th word from the top onto the top and keeps the rest. */
  lemma ExecDupCopies(k: nat, m: ContextState)
    requires 1 <= k <= 4 && k <= |m.stack| < m.maxDepth
    ensures Exec(Dup(k), m).result.Ok?
    ensures Exec(Dup(k), m).state.stack == m.stack + [m.stack[|m.stack| - k]]
  {
  }

  /** Two identical successful SWAPs restore the stack. */
  lemma ExecSwapTwice(k: nat, m: ContextState)
    requires 1 <= k <= 4 && Exec(Swap(k), m).result.Ok?
    ensures var once := Exec(Swap(k), m).state;
      Exec(Swap(k), once).result.Ok? && Exec(Swap(k), once).state.stack == m.stack
  {
    SwappedExchanges(m.stack, k);
    SwappedTwice(m.stack, k);
  }

  /**
   * JUMP on an empty stack underflows and changes nothing; otherwise it lands on
   * a JUMPDEST byte inside the code exactly when the destination is one, and
   * fails with `InvalidJump` when it is not.
   */
  lemma ExecJumpChecksDestination(m: ContextState)
    ensures |m.stack| == 0 ==> Exec(Jump, m) == Outcome(m, Err(StackErr(StackUnderflow)))
    ensures |m.stack| >= 1 ==>
      var dest, o := m.stack[|m.stack| - 1], Exec(Jump, m);
      (o.result.Ok? <==> ValidJumpDest(m.code, dest))
      && (!ValidJumpDest(m.code, dest) ==> o.result == Err(InvalidJump))
      && (o.result.Ok? ==> o.state.pc == dest && CodeAt(m.code, o.state.pc) == JUMPDEST)
  {
  }

  /**
   * JUMPI underflows on fewer than two words (keeping none of them); it falls
   * through on a zero condition, and otherwise behaves as JUMP.
   */
  lemma ExecJumpiChecksDestination(m: ContextState)
    ensures |m.stack| < 2 ==> Exec(Jumpi, m) == Outcome(m.(stack := []), Err(StackErr(StackUnderflow)))
    ensures |m.stack| >= 2 ==>
      var n, o := |m.stack|, Exec(Jumpi, m);
      var dest, condition := m.stack[n - 1], m.stack[n - 2];
      (condition == 0 ==> o.result.Ok? && o.state.pc == m.pc + 1)
      && (condition != 0 ==> (o.result.Ok? <==> ValidJumpDest(m.code, dest)))
      && (condition != 0 && !ValidJumpDest(m.code, dest) ==> o.result == Err(InvalidJump))
      && (condition != 0 && o.result.Ok? ==> o.state.pc == dest && CodeAt(m.code, dest) == JUMPDEST)
  {
  }

  /**
   * PUSHn pushes a word below 2^(8n) whose n-byte big-endian encoding is the n
   * code bytes after the opcode (zero past the end), and skips over them.
   */
  lemma ExecPushDecodesImmediates(n: nat, m: ContextState)
    requires WellFormed(Push(n)) && |m.stack| < m.maxDepth
    ensures var o := Exec(Push(n), m);
      o.result.Ok? && |o.state.stack| == |m.stack| + 1
      && o.state.stack[..|m.stack|] == m.stack
      && o.state.pc == m.pc + n + 1
      && o.state.stack[|m.stack|] < Pow2(8 * n)
      && ToBigEndian(o.state.stack[|m.stack|], n) == CodeWindow(m.code, m.pc + 1, n)
  {
    var window := CodeWindow(m.code, m.pc + 1, n);
    var v := Immediate(m.code, m.pc + 1, n);
    assert v == FromBigEndian(window);
    assert |window| == n by { CodeWindowAt(m.code, m.pc + 1, n); }
    ToFromBigEndian(window);
    var o := Exec(Push(n), m);
    assert o == ExecPush(n, m);
    assert o == Outcome(m.(stack := m.stack + [v], pc := m.pc + n + 1), Ok(()));
  }

  /**
   * As written, PUSH1 on code `[0x60, 0x2a]` pushes 0x60, its own opcode,
   * where the immediate 0x2a is intended.
   */
  lemma PushAsWrittenReadsOwnOpcode()
    ensures var m := ContextState([PUSH1, 0x2a], [], MAX_DEPTH, [], Calldata([]), 0, false, []);
      ExecPushAsWritten(1, m).state.stack == [0x60]
      && Exec(Push(1), m).state.stack == [0x2a]
  {
    var m := ContextState([PUSH1, 0x2a], [], MAX_DEPTH, [], Calldata([]), 0, false, []);
    assert CodeWindow(m.code, 0, 1) == [0x60];
    assert CodeWindow(m.code, 1, 1) == [0x2a];
  }

  /** A PUSH followed by a POP leaves the stack as it was. */
  lemma PushThenPopRestores(n: nat, m: ContextState)
    requires WellFormed(Push(n)) && |m.stack| < m.maxDepth
    ensures var pushed := Exec(Push(n), m);
      pushed.result.Ok? && Exec(Pop, pushed.state).result.Ok?
      && Exec(Pop, pushed.state).state.stack == m.stack
  {
  }

  /**
   * MSTORE then MLOAD at the same offset reads back the stored word: from a
   * stack `[.., offset, value, offset]` the pair leaves `[.., value]`.
   */
  lemma MstoreThenMload(m: ContextState)
    requires |m.stack| >= 3 && m.stack[|m.stack| - 1] == m.stack[|m.stack| - 3]
    ensures var n, stored := |m.stack|, Exec(Mstore, m);
      var loaded := Exec(Mload, stored.state);
      stored.result.Ok? && (loaded.result.Ok? <==> n - 2 <= m.maxDepth)
      && (loaded.result.Ok? ==> loaded.state.stack == m.stack[..n - 3] + [m.stack[n - 2]])
  {
    var n := |m.stack|;
    LoadAfterStore(m.memory, m.stack[n - 1], m.stack[n - 2]);
  }
}

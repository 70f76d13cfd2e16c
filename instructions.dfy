/**
 * Opcode bytes and their decoding into instructions: which bytes the
 * dispatcher handles, and which it rejects as invalid.
 */
module Instructions {
  import opened Words

  // Stop and arithmetic
  const STOP: Byte := 0x00
  const ADD: Byte := 0x01
  const MUL: Byte := 0x02
  const SUB: Byte := 0x03
  const DIV: Byte := 0x04
  const MOD: Byte := 0x06
  const EXP: Byte := 0x0a

  // Comparison and bitwise
  const LT: Byte := 0x10
  const GT: Byte := 0x11
  const EQ: Byte := 0x14
  const ISZERO: Byte := 0x15
  const AND: Byte := 0x16
  const OR: Byte := 0x17
  const XOR: Byte := 0x18
  const NOT: Byte := 0x19

  const SHA3: Byte := 0x20

  // Environment information
  const ADDRESS: Byte := 0x30
  const BALANCE: Byte := 0x31
  const ORIGIN: Byte := 0x32
  const CALLER: Byte := 0x33
  const CALLVALUE: Byte := 0x34
  const CALLDATALOAD: Byte := 0x35
  const CALLDATASIZE: Byte := 0x36
  const CALLDATACOPY: Byte := 0x37
  const CODESIZE: Byte := 0x38
  const CODECOPY: Byte := 0x39
  const GASPRICE: Byte := 0x3a
  const EXTCODESIZE: Byte := 0x3b
  const EXTCODECOPY: Byte := 0x3c

  // Block information
  const BLOCKHASH: Byte := 0x40
  const COINBASE: Byte := 0x41
  const TIMESTAMP: Byte := 0x42
  const NUMBER: Byte := 0x43
  const GASLIMIT: Byte := 0x45

  // Storage, memory and flow
  const POP: Byte := 0x50
  const MLOAD: Byte := 0x51
  const MSTORE: Byte := 0x52
  const MSTORE8: Byte := 0x53
  const SLOAD: Byte := 0x54
  const SSTORE: Byte := 0x55
  const JUMP: Byte := 0x56
  const JUMPI: Byte := 0x57
  const PC: Byte := 0x58
  const MSIZE: Byte := 0x59
  const GAS: Byte := 0x5a
  const JUMPDEST: Byte := 0x5b

  // Push, dup and swap families (only these members are declared)
  const PUSH1: Byte := 0x60
  const PUSH2: Byte := 0x61
  const PUSH3: Byte := 0x62
  const PUSH4: Byte := 0x63
  const PUSH5: Byte := 0x64
  const PUSH6: Byte := 0x65
  const PUSH7: Byte := 0x66
  const PUSH8: Byte := 0x67
  const PUSH32: Byte := 0x7f
  const DUP1: Byte := 0x80
  const DUP2: Byte := 0x81
  const DUP3: Byte := 0x82
  const DUP4: Byte := 0x83
  const SWAP1: Byte := 0x90
  const SWAP2: Byte := 0x91
  const SWAP3: Byte := 0x92
  const SWAP4: Byte := 0x93

  // Logging
  const LOG0: Byte := 0xa0
  const LOG1: Byte := 0xa1
  const LOG2: Byte := 0xa2
  const LOG3: Byte := 0xa3
  const LOG4: Byte := 0xa4

  // System
  const CREATE: Byte := 0xf0
  const CALL: Byte := 0xf1
  const RETURN: Byte := 0xf3
  const DELEGATECALL: Byte := 0xf4
  const REVERT: Byte := 0xfd
  const SELFDESTRUCT: Byte := 0xff

  /** The two-operand opcodes: each pops `b` (the top), then `a`, and pushes `a op b`. */
  datatype BinaryOp = AddOp | MulOp | SubOp | DivOp | ModOp | ExpOp | LtOp | GtOp | EqOp | AndOp | OrOp | XorOp

  /** The one-operand opcodes. */
  datatype UnaryOp = IsZeroOp | NotOp

  /** The instructions the model executes; `Dup(k)` is DUPk, `Swap(k)` SWAPk, `Push(n)` PUSHn. */
  datatype Instruction =
    | Stop
    | Binary(op: BinaryOp)
    | Unary(uop: UnaryOp)
    | Pop
    | Dup(k: nat)
    | Swap(k: nat)
    | Mload
    | Mstore
    | Jump
    | Jumpi
    | Jumpdest
    | Pc
    | Push(n: nat)
    | Caller
    | CallValue
    | CodeSize

  /** Only the family members the dispatcher handles: DUP1-4, SWAP1-4, PUSH1-8 and PUSH32. */
  predicate WellFormed(i: Instruction)
  {
    match i
    case Dup(k) => 1 <= k <= 4
    case Swap(k) => 1 <= k <= 4
    case Push(n) => 1 <= n <= 8 || n == 32
    case _ => true
  }

  /**
   * What the dispatcher does with a byte: run a modelled instruction, run a
   * handler this model leaves out, or reject the byte as an invalid opcode.
   */
  datatype Decoded = Known(instr: Instruction) | NotModelled | Invalid

  /** The bytes of the dispatcher's match arms, in five groups. */
  const ARITHMETIC_ARMS: set<Byte> := {STOP, ADD, MUL, SUB, DIV, MOD, EXP, LT, GT, EQ, ISZERO, AND, OR, XOR, NOT}
  const STACK_ARMS: set<Byte> := {POP, DUP1, DUP2, DUP3, DUP4, SWAP1, SWAP2, SWAP3, SWAP4}
  const MEMORY_FLOW_ARMS: set<Byte> := {MLOAD, MSTORE, MSTORE8, MSIZE, JUMP, JUMPI, JUMPDEST, PC}
  const PUSH_ARMS: set<Byte> := {PUSH1, PUSH2, PUSH3, PUSH4, PUSH5, PUSH6, PUSH7, PUSH8, PUSH32}
  const ENVIRONMENT_ARMS: set<Byte> := {ADDRESS, CALLER, CALLVALUE, CALLDATALOAD, CALLDATASIZE, CALLDATACOPY, CODESIZE, CODECOPY, RETURN}

  /** Every byte the dispatcher matches, modelled or not. */
  const DISPATCHED: set<Byte> := ARITHMETIC_ARMS + STACK_ARMS + MEMORY_FLOW_ARMS + PUSH_ARMS + ENVIRONMENT_ARMS

  /** The dispatcher's match, grouped by opcode range. */
  function Decode(opcode: Byte): (d: Decoded)
    ensures d.Known? ==> WellFormed(d.instr)
  {
    if opcode < SHA3 then
      if opcode == STOP then Known(Stop)
      else if opcode == ADD then Known(Binary(AddOp))
      else if opcode == MUL then Known(Binary(MulOp))
      else if opcode == SUB then Known(Binary(SubOp))
      else if opcode == DIV then Known(Binary(DivOp))
      else if opcode == MOD then Known(Binary(ModOp))
      else if opcode == EXP then Known(Binary(ExpOp))
      else if opcode == LT then Known(Binary(LtOp))
      else if opcode == GT then Known(Binary(GtOp))
      else if opcode == EQ then Known(Binary(EqOp))
      else if opcode == ISZERO then Known(Unary(IsZeroOp))
      else if opcode == AND then Known(Binary(AndOp))
      else if opcode == OR then Known(Binary(OrOp))
      else if opcode == XOR then Known(Binary(XorOp))
      else if opcode == NOT then Known(Unary(NotOp))
      else Invalid
    else if opcode < POP then
      if opcode == CALLER then Known(Caller)
      else if opcode == CALLVALUE then Known(CallValue)
      else if opcode == CODESIZE then Known(CodeSize)
      else if opcode in {ADDRESS, CALLDATALOAD, CALLDATASIZE, CALLDATACOPY, CODECOPY} then NotModelled
      else Invalid
    else if opcode < PUSH1 then
      if opcode == POP then Known(Pop)
      else if opcode == MLOAD then Known(Mload)
      else if opcode == MSTORE then Known(Mstore)
      else if opcode == JUMP then Known(Jump)
      else if opcode == JUMPI then Known(Jumpi)
      else if opcode == JUMPDEST then Known(Jumpdest)
      else if opcode == PC then Known(Pc)
      else if opcode == MSTORE8 || opcode == MSIZE then NotModelled
      else Invalid
    else if opcode < DUP1 then
      if opcode <= PUSH8 then Known(Push(opcode - PUSH1 + 1))
      else if opcode == PUSH32 then Known(Push(32))
      else Invalid
    else if DUP1 <= opcode <= DUP4 then Known(Dup(opcode - DUP1 + 1))
    else if SWAP1 <= opcode <= SWAP4 then Known(Swap(opcode - SWAP1 + 1))
    else if opcode == RETURN then NotModelled
    else Invalid
  }

  /** The opcode byte of a well-formed instruction. */
  function Encode(i: Instruction): Byte
    requires WellFormed(i)
  {
    match i
    case Stop => STOP
    case Binary(op) =>
      (match op
       case AddOp => ADD case MulOp => MUL case SubOp => SUB case DivOp => DIV
       case ModOp => MOD case ExpOp => EXP case LtOp => LT case GtOp => GT
       case EqOp => EQ case AndOp => AND case OrOp => OR case XorOp => XOR)
    case Unary(uop) => if uop == IsZeroOp then ISZERO else NOT
    case Pop => POP
    case Dup(k) => DUP1 + k - 1
    case Swap(k) => SWAP1 + k - 1
    case Mload => MLOAD
    case Mstore => MSTORE
    case Jump => JUMP
    case Jumpi => JUMPI
    case Jumpdest => JUMPDEST
    case Pc => PC
    case Push(n) => if n == 32 then PUSH32 else PUSH1 + n - 1
    case Caller => CALLER
    case CallValue => CALLVALUE
    case CodeSize => CODESIZE
  }

  /** Decoding the byte of an instruction gives that instruction back. */
  lemma DecodeEncode(i: Instruction)
    requires WellFormed(i)
    ensures Decode(Encode(i)) == Known(i)
  {
  }

  /** Every instruction the decoder produces is well formed and is encoded by the byte it came from. */
  lemma EncodeDecode(opcode: Byte)
    requires Decode(opcode).Known?
    ensures WellFormed(Decode(opcode).instr)
    ensures Encode(Decode(opcode).instr) == opcode
  {
  }

  /** Every arithmetic arm decodes to an instruction. */
  lemma ArithmeticArmIsDecoded(b: Byte)
    requires b in ARITHMETIC_ARMS
    ensures Decode(b) != Invalid
  {
    assert b == STOP || b == ADD || b == MUL || b == SUB || b == DIV || b == MOD || b == EXP || b == LT
      || b == GT || b == EQ || b == ISZERO || b == AND || b == OR || b == XOR || b == NOT;
  }

  /** Every stack arm decodes to an instruction. */
  lemma StackArmIsDecoded(b: Byte)
    requires b in STACK_ARMS
    ensures Decode(b) != Invalid
  {
    assert b == POP || b == DUP1 || b == DUP2 || b == DUP3 || b == DUP4
      || b == SWAP1 || b == SWAP2 || b == SWAP3 || b == SWAP4;
  }

  /** Every memory or flow arm decodes, to an instruction or to a left-out handler. */
  lemma MemoryFlowArmIsDecoded(b: Byte)
    requires b in MEMORY_FLOW_ARMS
    ensures Decode(b) != Invalid
  {
    assert b == MLOAD || b == MSTORE || b == MSTORE8 || b == MSIZE || b == JUMP || b == JUMPI
      || b == JUMPDEST || b == PC;
  }

  /** Every push arm decodes to an instruction. */
  lemma PushArmIsDecoded(b: Byte)
    requires b in PUSH_ARMS
    ensures Decode(b) != Invalid
  {
    assert b == PUSH1 || b == PUSH2 || b == PUSH3 || b == PUSH4 || b == PUSH5 || b == PUSH6
      || b == PUSH7 || b == PUSH8 || b == PUSH32;
  }

  /** Every environment arm decodes, to an instruction or to a left-out handler. */
  lemma EnvironmentArmIsDecoded(b: Byte)
    requires b in ENVIRONMENT_ARMS
    ensures Decode(b) != Invalid
  {
    assert b == ADDRESS || b == CALLER || b == CALLVALUE || b == CALLDATALOAD || b == CALLDATASIZE
      || b == CALLDATACOPY || b == CODESIZE || b == CODECOPY || b == RETURN;
  }

  /** A byte the decoder rejects is in no match arm. */
  lemma InvalidIsUndispatched(opcode: Byte)
    requires Decode(opcode) == Invalid
    ensures opcode !in DISPATCHED
  {
    if opcode in ARITHMETIC_ARMS {
      ArithmeticArmIsDecoded(opcode);
    } else if opcode in STACK_ARMS {
      StackArmIsDecoded(opcode);
    } else if opcode in MEMORY_FLOW_ARMS {
      MemoryFlowArmIsDecoded(opcode);
    } else if opcode in PUSH_ARMS {
      PushArmIsDecoded(opcode);
    } else if opcode in ENVIRONMENT_ARMS {
      EnvironmentArmIsDecoded(opcode);
    }
  }

  /** A byte of any arm group is dispatched. */
  lemma ArmIsDispatched(b: Byte)
    requires b in ARITHMETIC_ARMS || b in STACK_ARMS || b in MEMORY_FLOW_ARMS || b in PUSH_ARMS || b in ENVIRONMENT_ARMS
    ensures b in DISPATCHED
  {
  }

  /** An accepted byte from DUP1 upwards, other than RETURN, is a DUP or SWAP arm. */
  lemma DecodedDupSwapIsArm(opcode: Byte)
    requires DUP1 <= opcode && opcode != RETURN && Decode(opcode) != Invalid
    ensures opcode in STACK_ARMS
  {
    if opcode <= DUP4 {
      assert opcode == DUP1 || opcode == DUP2 || opcode == DUP3 || opcode == DUP4;
    } else {
      assert opcode == SWAP1 || opcode == SWAP2 || opcode == SWAP3 || opcode == SWAP4;
    }
  }

  /** An accepted byte in the push range is a PUSH arm. */
  lemma DecodedPushIsArm(opcode: Byte)
    requires PUSH1 <= opcode < DUP1 && Decode(opcode) != Invalid
    ensures opcode in PUSH_ARMS
  {
    if opcode <= PUSH4 {
      assert opcode == PUSH1 || opcode == PUSH2 || opcode == PUSH3 || opcode == PUSH4;
    } else if opcode <= PUSH8 {
      assert opcode == PUSH5 || opcode == PUSH6 || opcode == PUSH7 || opcode == PUSH8;
    }
  }

  /** An accepted byte in the memory and flow range, other than POP, is a memory or flow arm. */
  lemma DecodedMemoryFlowIsArm(opcode: Byte)
    requires POP < opcode < PUSH1 && Decode(opcode) != Invalid
    ensures opcode in MEMORY_FLOW_ARMS
  {
  }

  /** An accepted byte below SHA3 is an arithmetic arm. */
  lemma DecodedLowIsArm(opcode: Byte)
    requires opcode < SHA3 && Decode(opcode) != Invalid
    ensures opcode in ARITHMETIC_ARMS
  {
  }

  /** An accepted byte in the environment range, or RETURN, is an environment arm. */
  lemma DecodedEnvironmentIsArm(opcode: Byte)
    requires (SHA3 <= opcode < POP || opcode == RETURN) && Decode(opcode) != Invalid
    ensures opcode in ENVIRONMENT_ARMS
  {
  }

  /** A byte the decoder accepts, as a modelled instruction or as a left-out one, is in a match arm. */
  lemma DecodedIsDispatched(opcode: Byte)
    requires Decode(opcode) != Invalid
    ensures opcode in DISPATCHED
  {
    if opcode < SHA3 {
      DecodedLowIsArm(opcode);
    } else if opcode < POP || opcode == RETURN {
      DecodedEnvironmentIsArm(opcode);
    } else if opcode == POP {
      assert opcode in STACK_ARMS;
    } else if opcode >= DUP1 {
      DecodedDupSwapIsArm(opcode);
    } else if opcode < PUSH1 {
      DecodedMemoryFlowIsArm(opcode);
    } else {
      DecodedPushIsArm(opcode);
    }
    ArmIsDispatched(opcode);
  }

  /** A byte is rejected as invalid exactly when the dispatcher does not match it. */
  lemma InvalidExactlyUndispatched(opcode: Byte)
    ensures Decode(opcode) == Invalid <==> opcode !in DISPATCHED
  {
    if Decode(opcode) == Invalid {
      InvalidIsUndispatched(opcode);
    } else {
      DecodedIsDispatched(opcode);
    }
  }

  /** Declared constants that the dispatcher never matches are invalid opcodes. */
  lemma DeclaredButUndispatched()
    ensures Decode(SHA3) == Invalid && Decode(SLOAD) == Invalid && Decode(SSTORE) == Invalid
    ensures Decode(CALL) == Invalid && Decode(REVERT) == Invalid && Decode(CREATE) == Invalid
    ensures Decode(DELEGATECALL) == Invalid && Decode(SELFDESTRUCT) == Invalid
    ensures Decode(BALANCE) == Invalid && Decode(ORIGIN) == Invalid && Decode(GAS) == Invalid
    ensures Decode(LOG0) == Invalid && Decode(LOG4) == Invalid && Decode(BLOCKHASH) == Invalid
    ensures Decode(LOG1) == Invalid && Decode(LOG2) == Invalid && Decode(LOG3) == Invalid
    ensures Decode(GASPRICE) == Invalid && Decode(EXTCODESIZE) == Invalid && Decode(EXTCODECOPY) == Invalid
    ensures Decode(COINBASE) == Invalid && Decode(TIMESTAMP) == Invalid && Decode(NUMBER) == Invalid
    ensures Decode(GASLIMIT) == Invalid
  {
  }
}

# A verified model of a small EVM interpreter

This project models the core of a small Ethereum Virtual Machine interpreter
written in Rust. That core has four parts:

- **The word stack.** A bounded last-in-first-out stack of 256-bit words, with push, pop, peek and swap.
- **Byte-addressed memory.** It grows with zeros when a 32-byte word is stored past its end. A load past the end reads 0.
- **Persistent storage.** A map from word to word in which a missing key reads as 0.
- **The execution context and opcode handlers.** The context holds code, stack, memory, calldata, pc, stop flag and return data. Each handler pops its operands, computes a word, pushes it and moves the pc. `execute_opcode` dispatches an opcode byte to its handler, or rejects it as `InvalidOpcode`.

Words are integers in `[0, 2^256)` (`Words.Word`), and bytes are integers in
`[0, 256)`. Wrap-around is written out as reduction modulo 2^256. Big-endian
encoding and decoding of words are functions, with both round trips proved.

The state of a context is also given as a value, `Context.ContextState`. The
effect of one instruction on that value is the function `Semantics.Exec`, and
`Semantics.Step` is the effect of one dispatched byte. The handlers in
`Opcodes` mirror the source:

- they are methods on the mutable `ExecutionContext` (a class whose stack and memory are objects with mutable fields);
- each one is proved to leave exactly the state and result that `Exec` gives;
- the lemmas in `Semantics` state what the instruction set promises about `Exec`: stack discipline (the δ/α arities of appendix H.2 of the Ethereum Yellow Paper), the frame, pc advance, jump checks, immediate decoding and round trips.

Several places in the source do not compile as written. The model follows what
they evidently mean:

- `src/evm/context.rs:22` has `.` where `,` is meant.
- `stop` (`src/evm/context.rs:37-39`) lacks its final `Ok(())`.
- `read_byte` (`src/evm/calldata.rs:25`) returns `0` where `Ok(0)` is meant.
- `set_return_data`, `stop` and `set_pc` (`src/evm/context.rs:31`, `37`, `41`) return `Result<()>`, which names no error type, and no alias for it is imported. The model treats them as infallible.
- The handlers call accessors that `ExecutionContext` never defines: `pc()`, `code()`, `stack()`, `stack_mut()`, `memory()` and `memory_mut()` (for example `src/evm/opcodes.rs:188`, `194`, `346`, `400`, `410`, `439`). The model's handlers read and update the context's fields directly, which is what these accessors evidently stand for.
- `struct ExecutionContext` is private (`src/evm/context.rs:7`) but is imported by `src/evm/opcodes.rs:1`. The model's class is visible to the handlers.

`set_pc` and `stop` can only return `Ok(())`, and the handlers ignore their
results, so the model's `SetPc` and `Stop` return nothing.

The model keeps several behaviours as coded, including where they deviate from the Yellow Paper:

- `swap` reports too few items as `StackOverflow`.
- MLOAD past the end of memory returns 0 without growing memory.
- The JUMPDEST check does no analysis of push data.
- A failed pop keeps the pops made before it. A binary handler on a one-item stack leaves the stack empty.
- A failing handler leaves the pc where it was.

## Model

| member | source | states |
|---|---|---|
| WordStack.Stack.constructor | src/evm/stack.rs:18-23 | a new stack is empty and bounded by the given depth; contexts pass `MAX_DEPTH` |
| WordStack.Stack.Push | src/evm/stack.rs:25-32 | below the bound the value becomes the new top and the length grows by one; at the bound the result is `StackOverflow` and the stack is unchanged; the bound is kept |
| WordStack.Stack.Pop | src/evm/stack.rs:34-40 | an empty stack gives `StackUnderflow` and is unchanged; otherwise the old top is returned and the rest is the old prefix |
| WordStack.Stack.Peek | src/evm/stack.rs:42-48 | returns `data[len-1-index]`, or `IndexError` when `index >= len`; changes nothing |
| WordStack.Stack.Swap | src/evm/stack.rs:50-57 | `n + 1 > len` gives `StackOverflow` and no change; otherwise the stack becomes `Swapped(old, n)` |
| WordStack.SwappedExchanges | src/evm/stack.rs:55 | a swap exchanges the top with the word `n` below it, keeps every other position and the length, and is a permutation (same multiset) |
| WordStack.SwappedTwice | src/evm/stack.rs:55 | swapping the same pair twice restores the stack |
| WordStack.PushThenPop | src/evm/stack.rs:25-40 | on a stack below its bound, a push of `v` followed by a pop returns `v` and restores the stack |
| ByteMemory.Memory.constructor | src/evm/memory.rs:15-19 | a new memory is empty |
| ByteMemory.Memory.Store | src/evm/memory.rs:21-39 | the write loop leaves the buffer equal to `StoreWord(old, offset, value)` and always succeeds |
| ByteMemory.StoreWordShape | src/evm/memory.rs:23-36 | after a store the length is `max(len, offset+32)`, the window holds the 32-byte big-endian encoding, every other byte is unchanged, and bytes added by growth read 0 |
| ByteMemory.StoreWordGrows | src/evm/memory.rs:25-27 | memory never shrinks and always covers the stored window |
| ByteMemory.Memory.Load | src/evm/memory.rs:42-56 | the read loop returns `LoadWord`: 0 when `offset+32 > len`, otherwise the big-endian value of the 32 bytes; memory is not modified |
| ByteMemory.LoadAfterStore | src/evm/memory.rs:21-56 | a store followed by a load at the same offset returns the stored word |
| ByteMemory.LoadAfterStoreElsewhere | src/evm/memory.rs:34-36 | a store leaves a load from a disjoint in-bounds window unchanged |
| ByteMemory.StoreOverwrites | src/evm/memory.rs:34-36 | of two stores to the same offset the later one wins |
| Words.FromToBigEndian | src/evm/memory.rs:31 | decoding the n-byte big-endian encoding of a value below 2^(8n) gives the value back |
| Words.ToFromBigEndian | src/evm/memory.rs:55 | encoding the decoded value of a byte string to its own length gives the string back |
| Words.FromBigEndianLeadingZeros | src/evm/opcodes.rs:509-511 | zero bytes in front of a byte string do not change its big-endian value |
| PersistentStorage.Storage.constructor | src/evm/storage.rs:15-19 | a new storage holds no keys |
| PersistentStorage.LookupEmpty | src/evm/storage.rs:34-36 | every key of an empty storage reads 0 |
| PersistentStorage.Storage.Store | src/evm/storage.rs:29-32 | inserts `key := value`, leaving the other keys, and always succeeds |
| PersistentStorage.Storage.Load | src/evm/storage.rs:34-36 | returns the stored value, or 0 for a missing key, and always succeeds |
| PersistentStorage.LookupAfterInsert | src/evm/storage.rs:29-36 | after an insert the key reads the new value and every other key reads as before |
| PersistentStorage.InsertOverwrites | src/evm/storage.rs:30 | a later insert to the same key overwrites an earlier one |
| PersistentStorage.ContainsAndLookup | src/evm/storage.rs:34-40 | an inserted key is contained; a key not contained reads 0 |
| PersistentStorage.Storage.Contains | src/evm/storage.rs:38-40 | a key that is not contained loads as 0; a contained key loads its stored value |
| PersistentStorage.StoreThenLoad | src/evm/storage.rs:29-40 | store then load returns the value and the key is contained afterwards, with every other key reading as before |
| PersistentStorage.Storage.LoadStorage | src/evm/storage.rs:21-23 | reads from the storage passed as argument, not from `self` |
| PersistentStorage.Storage.StoreStorage | src/evm/storage.rs:25-27 | writes into the storage passed as argument; `self` is unchanged when it is a different storage |
| CallData.Calldata.ReadByte | src/evm/calldata.rs:22-29 | returns `data[offset]` in range and 0 past the end, never an error |
| CallData.ReadByteZeroExtended | src/evm/calldata.rs:24-28 | appending zero bytes to the calldata changes no read |
| Context.ExecutionContext.constructor | src/evm/context.rs:19-29 | a new context has empty code, stack (bounded by `MAX_DEPTH`), memory, calldata and return data, pc 0, and is not stopped |
| Context.ExecutionContext.SetReturnData | src/evm/context.rs:31-35 | sets the stop flag and the return data, and nothing else |
| Context.ExecutionContext.Stop | src/evm/context.rs:37-39 | sets the stop flag and nothing else, so stopping twice is stopping once |
| Context.ExecutionContext.SetPc | src/evm/context.rs:41-44 | sets the pc and nothing else |
| Context.ExecutionContext.ReadCode | src/evm/context.rs:46-56 | returns exactly `n` bytes, byte `i` being `code[pc+i]` in range and 0 past the end; the context is unchanged |
| Context.ExecutionContext.ReadCodeFrom | src/evm/context.rs:47-55 | the same loop from an explicit start, equal to `CodeWindow(code, start, n)` |
| Context.CodeWindowAt | src/evm/context.rs:48-54 | the code window has `n` bytes, each the code byte or 0 past the end |
| WordOps.AddSubInverse | src/evm/opcodes.rs:193-218 | wrapping subtraction undoes wrapping addition modulo 2^256 |
| WordOps.DivModLaw | src/evm/opcodes.rs:220-236 | DIV and MOD give 0 for a zero divisor, and otherwise satisfy `a = (a/b)*b + a%b` with `a%b < b` |
| WordOps.ComparisonTrichotomy | src/evm/opcodes.rs:267-300 | exactly one of LT, GT and EQ gives 1; LT is 1 exactly when `a < b`; GT is LT with its operands exchanged; ISZERO is EQ against 0 |
| WordOps.ExpShortcuts | src/evm/opcodes.rs:243-246 | the shortcuts agree with the power: `x^0 = 1` and `0^e = 0` for `e > 0` |
| WordOps.WordBitwiseLaws | src/evm/opcodes.rs:303-336 | NOT is `2^256 - 1 - a` and an involution; `AND + OR = a + b`; `XOR = OR - AND` |
| Opcodes.ExpBySquaring | src/evm/opcodes.rs:243-259 | the square-and-multiply loop returns `base^exponent mod 2^256`, with the invariant `result * base_pow^exp ≡ base^exponent` |
| Opcodes.ExpLoopRound | src/evm/opcodes.rs:252-258 | one round of the loop keeps its invariant modulo 2^256 |
| Opcodes.BinaryResult | src/evm/opcodes.rs:196-336 | the word a binary handler computes is `Apply(op, a, b)`, with EXP computed by the loop |
| Opcodes.HandleStop | src/evm/opcodes.rs:186-190 | sets the stop flag and advances the pc by one |
| Opcodes.HandleBinary | src/evm/opcodes.rs:193-328 | ADD through XOR leave exactly the state and result of `Exec(Binary(op))` |
| Opcodes.HandleUnary | src/evm/opcodes.rs:294-336 | ISZERO and NOT leave exactly the state and result of `Exec(Unary(op))` |
| Opcodes.HandlePop | src/evm/opcodes.rs:339-343 | POP leaves exactly the state and result of `Exec(Pop)` |
| Opcodes.HandleDup | src/evm/opcodes.rs:345-371 | DUP1-DUP4 push `peek(k-1)`, exactly as `Exec(Dup(k))` |
| Opcodes.HandleSwap | src/evm/opcodes.rs:373-395 | SWAP1-SWAP4 call `swap(k)`, exactly as `Exec(Swap(k))` |
| Opcodes.HandleMload | src/evm/opcodes.rs:398-405 | MLOAD pops the offset and pushes `LoadWord`, exactly as `Exec(Mload)` |
| Opcodes.HandleMstore | src/evm/opcodes.rs:407-414 | MSTORE pops the offset then the value and stores it, exactly as `Exec(Mstore)` |
| Opcodes.HandleJump | src/evm/opcodes.rs:434-450 | JUMP leaves exactly the state and result of `Exec(Jump)` |
| Opcodes.HandleJumpi | src/evm/opcodes.rs:452-475 | JUMPI leaves exactly the state and result of `Exec(Jumpi)` |
| Opcodes.HandleJumpdest | src/evm/opcodes.rs:477-481 | JUMPDEST only advances the pc |
| Opcodes.HandlePc | src/evm/opcodes.rs:483-488 | PC pushes the pc as a word, exactly as `Exec(Pc)` |
| Opcodes.ImmediateValue | src/evm/opcodes.rs:491-573 | the value PUSHn makes of its bytes (the byte itself, a direct decode, or a decode after left-padding to 32 bytes) is the big-endian value of the bytes |
| Opcodes.HandlePush | src/evm/opcodes.rs:491-573 | PUSHn, reading its immediates after the opcode, leaves exactly the state and result of `Exec(Push(n))` |
| Opcodes.HandlePushAsWritten | src/evm/opcodes.rs:491-573 | PUSHn as written, reading from the opcode's own position, leaves exactly the state of `ExecPushAsWritten` |
| Opcodes.HandleZeroStub | src/evm/opcodes.rs:586-600 | CALLER and CALLVALUE push 0 |
| Opcodes.HandleCodesize | src/evm/opcodes.rs:633-638 | CODESIZE pushes the code length as a word |
| Opcodes.ExecuteOpcode | src/evm/opcodes.rs:109-182 | the dispatcher leaves exactly the state and result of `Step(opcode)`, and keeps the stack within its bound; the PUSH arms run the corrected handler |
| Instructions.Decode | src/evm/opcodes.rs:110-181 | the match of `execute_opcode`: every instruction it yields is one the dispatcher has a handler for (DUP1-4, SWAP1-4, PUSH1-8 and PUSH32 only) |
| Instructions.DecodeEncode | src/evm/opcodes.rs:14-107 | decoding the opcode byte of a modelled instruction gives that instruction back |
| Instructions.EncodeDecode | src/evm/opcodes.rs:109-182 | every instruction the decoder yields is well formed and is encoded by the byte it came from |
| Instructions.InvalidIsUndispatched | src/evm/opcodes.rs:181 | a byte the decoder rejects is in no match arm |
| Instructions.DecodedIsDispatched | src/evm/opcodes.rs:111-179 | a byte the decoder accepts is in some match arm |
| Instructions.InvalidExactlyUndispatched | src/evm/opcodes.rs:109-182 | a byte is rejected as invalid exactly when no match arm names it |
| Instructions.DeclaredButUndispatched | src/evm/opcodes.rs:181 | all 24 declared but unmatched constants (SHA3, BALANCE, ORIGIN, GASPRICE, EXTCODESIZE, EXTCODECOPY, BLOCKHASH, COINBASE, TIMESTAMP, NUMBER, GASLIMIT, SLOAD, SSTORE, GAS, LOG0-LOG4, CREATE, CALL, DELEGATECALL, REVERT, SELFDESTRUCT) are invalid opcodes |
| Semantics.StepUndispatched | src/evm/opcodes.rs:181 | a byte in no match arm fails with `InvalidOpcode` and changes nothing |
| Semantics.ExecStackEffect | src/evm/opcodes.rs:193-573 | a successful instruction had at least δ words, leaves `n - δ + α` and keeps the words below; apart from jumps, it succeeds exactly when the stack has δ words and room for the result |
| Semantics.ExecPreservesValid | src/evm/stack.rs:27-29 | no instruction takes the stack past its bound |
| Semantics.ExecFrame | src/evm/opcodes.rs:186-638 | code, calldata, bound and return data never change; memory changes only on MSTORE; only STOP sets the stop flag; a failure leaves the pc |
| Semantics.ExecAdvancesPc | src/evm/opcodes.rs:186-638 | every successful instruction other than a jump advances the pc by one, plus `n` for PUSHn |
| Semantics.ExecBinaryEffect | src/evm/opcodes.rs:193-328 | a binary opcode pushes `a op b` with `b` the top; on fewer than two words it fails with `StackUnderflow` |
| Semantics.ComparisonsPushFlags | src/evm/opcodes.rs:267-336 | LT, GT, EQ and ISZERO push 1 exactly when their relation holds and 0 otherwise; NOT pushes `2^256 - 1 - a` |
| Semantics.ExecDupCopies | src/evm/opcodes.rs:345-371 | DUPk appends a copy of the k-th word from the top and keeps the rest |
| Semantics.ExecSwapTwice | src/evm/opcodes.rs:373-395 | two identical successful SWAPs restore the stack |
| Semantics.ExecJumpChecksDestination | src/evm/opcodes.rs:434-450 | JUMP on an empty stack fails with `StackUnderflow` and changes nothing; otherwise it succeeds exactly when the destination is inside the code on a JUMPDEST byte, then lands there, and fails with `InvalidJump` when it is not |
| Semantics.ExecJumpiChecksDestination | src/evm/opcodes.rs:452-475 | JUMPI on fewer than two words fails with `StackUnderflow` leaving an empty stack; with a zero condition it falls through to `pc + 1`, and otherwise behaves as JUMP, failing with `InvalidJump` on a bad destination |
| Semantics.ExecPushDecodesImmediates | src/evm/opcodes.rs:491-573 | PUSHn pushes a word below 2^(8n) whose n-byte big-endian encoding is the n code bytes after the opcode, zero past the end, and advances the pc by `n + 1` |
| Semantics.PushAsWrittenReadsOwnOpcode | src/evm/opcodes.rs:491-497 | as written, PUSH1 on code `[0x60, 0x2a]` pushes 0x60, its own opcode, where the corrected PUSH1 pushes 0x2a |
| Semantics.PushThenPopRestores | src/evm/opcodes.rs:339-343 | a PUSH followed by a POP leaves the stack as it was |
| Semantics.MstoreThenMload | src/evm/opcodes.rs:398-414 | MSTORE then MLOAD at the same offset leaves the stored word on the stack |

## Left out

- MSTORE8, MSIZE, ADDRESS, CALLDATALOAD, CALLDATASIZE, CALLDATACOPY, CODECOPY and RETURN (src/evm/opcodes.rs:416-431, 576-584, 602-631, 640-673): each needs a helper that is not part of this model (`store_byte`, `size`, `contract_address`, calldata `load`, `size` and `copy_to_memory`, `store_bytes`, `load_range`). Their bytes decode to `NotModelled`, which is neither run nor counted as invalid.
- Opcodes.ExecuteOpcode: requires that the byte is not one of the handlers listed above, since their effect is not modelled.
- Opcodes.ExecuteOpcode: dispatches PUSH1-PUSH8 and PUSH32 to the corrected `HandlePush`, which reads the immediates after the opcode. The source's `handlePushN` reads from the opcode byte itself (see "## Findings"). On code `[0x60, 0x2a]` at pc 0 the source pushes 0x60 and this dispatcher pushes 0x2a. The behaviour as written is `Opcodes.HandlePushAsWritten`.
- Semantics.Step: requires the same, for the same reason.
- Semantics.Step: runs the corrected PUSHn (`Semantics.ExecPush`) in the same way; the behaviour as written is `Semantics.ExecPushAsWritten`.
- Context.ExecutionContext.SetReturnData: takes the returned bytes as a parameter, because `load_range` is not part of this model.
- `MAX_DEPTH` comes from a `constants` module that is not part of this model. It is the constant `WordStack.MAX_DEPTH` = 1024, the EVM's depth; the stack itself takes its bound as a parameter.
- Machine-size arithmetic is not modelled. In the model `offset + 32` on `usize` cannot overflow. A word used as a memory offset or jump destination is taken at its full value, whereas `as_usize()` panics on a word above `usize::MAX`. On such a word the source aborts in JUMP, JUMPI (nonzero condition), MLOAD and MSTORE. The model instead reports `InvalidJump` (the destination is past the code), makes MLOAD read 0, and makes MSTORE grow memory to that offset.
- `U256::from(pc)` and `U256::from(len)` are modelled as reduction modulo 2^256 (`Semantics.WordOf`), which is the identity for every size a `usize` can hold.
- CALLER and CALLVALUE are stubs that push 0 until a transaction context exists; the model does exactly that and proves nothing further about them.
- The source has no run loop, nested calls, call depth, checkpoints, rollback or revert; neither does the model. SLOAD, SSTORE, CALL and REVERT are declared constants that are never dispatched, and the model proves them invalid.
- The internals of `U256`, `HashMap` and `Vec` are replaced by unbounded integers below 2^256, `map<Word, Word>` and sequences.
- Bitwise AND, OR, XOR and NOT are defined bit by bit on integers rather than on bit-vectors.

## Findings

| source | as written | input that shows it | evidently intended | confidence | as-written member | corrected member |
|---|---|---|---|---|---|---|
| src/evm/opcodes.rs:491-573 with src/evm/context.rs:46-56 | PUSHn takes its `n` bytes from `read_code(n)`, which starts at the current pc, the PUSH opcode's own byte; the pc then skips `n + 1` bytes | code `[0x60, 0x2a]` with pc 0: PUSH1 pushes 0x60 (its own opcode) | PUSHn pushes the `n` bytes after the opcode, here 0x2a | not executed | Semantics.PushAsWrittenReadsOwnOpcode | Semantics.ExecPushDecodesImmediates |

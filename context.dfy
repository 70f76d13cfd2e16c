/**
 * The execution context of one call: its code, word stack, memory, calldata,
 * program counter, stop flag and return data.
 */
module Context {
  import opened Words
  import opened WordStack
  import opened ByteMemory
  import opened CallData

  /** Byte `i` of the code as an instruction read sees it: the code byte, or 0 past the end. */
  function CodeAt(code: seq<Byte>, i: nat): Byte
  {
    if i < |code| then code[i] else 0
  }

  /** The `n` code bytes from `start`, taken from the code followed by enough zero bytes. */
  function CodeWindow(code: seq<Byte>, start: nat, n: nat): seq<Byte>
  {
    var padded := code + Zeros(if start + n > |code| then start + n - |code| else 0);
    padded[start..start + n]
  }

  /** The window has exactly `n` bytes, byte `i` being the code byte at `start + i` or 0 past the end. */
  lemma CodeWindowAt(code: seq<Byte>, start: nat, n: nat)
    ensures |CodeWindow(code, start, n)| == n
    ensures forall i :: 0 <= i < n ==> CodeWindow(code, start, n)[i] == CodeAt(code, start + i)
  {
  }

  /** The whole state of a context as a value; `maxDepth` is the bound of its stack. */
  datatype ContextState = ContextState(
    code: seq<Byte>,
    stack: seq<Word>,
    maxDepth: nat,
    memory: seq<Byte>,
    calldata: Calldata,
    pc: nat,
    stopped: bool,
    returnData: seq<Byte>)
  {
    /** The stack holds at most `maxDepth` words. */
    predicate Valid()
    {
      |stack| <= maxDepth
    }
  }

  class ExecutionContext {
    var code: seq<Byte>
    const stack: Stack
    const memory: Memory
    var calldata: Calldata
    var pc: nat
    var stopped: bool
    var returnData: seq<Byte>

    ghost predicate Valid()
      reads this, stack
    {
      stack.Valid()
    }

    function State(): ContextState
      reads this, stack, memory
    {
      ContextState(code, stack.data, stack.maxDepth, memory.memory, calldata, pc, stopped, returnData)
    }

    /** A fresh context: no code, empty stack (bounded by MAX_DEPTH), memory, calldata and return data; pc 0, running. */
    constructor ()
      ensures Valid() && fresh(stack) && fresh(memory)
      ensures State() == ContextState([], [], MAX_DEPTH, [], Calldata([]), 0, false, [])
    {
      code := [];
      stack := new Stack(MAX_DEPTH);
      memory := new Memory();
      calldata := Calldata([]);
      pc := 0;
      stopped := false;
      returnData := [];
    }

    /**
     * Stops the context with `data` as its return data. `data` stands for
     * `memory.load_range(offset, length)`; `load_range` is not part of this model.
     */
    method SetReturnData(data: seq<Byte>)
      modifies this
      ensures State() == old(State()).(stopped := true, returnData := data)
    {
      stopped := true;
      returnData := data;
    }

    /** Stops the context; nothing else changes, so stopping twice is the same as once. */
    method Stop()
      modifies this
      ensures State() == old(State()).(stopped := true)
    {
      stopped := true;
    }

    method SetPc(pc: nat)
      modifies this
      ensures State() == old(State()).(pc := pc)
    {
      this.pc := pc;
    }

    /** The `n` code bytes starting at the current pc, zero past the end of the code. */
    method ReadCode(n: nat) returns (bytes: seq<Byte>)
      ensures |bytes| == n
      ensures forall i :: 0 <= i < n ==> bytes[i] == CodeAt(code, pc + i)
      ensures bytes == CodeWindow(code, pc, n)
    {
      bytes := ReadCodeFrom(pc, n);
    }

    /** The `n` code bytes starting at `start`: the loop of `read_code`, with its start as a parameter. */
    method ReadCodeFrom(start: nat, n: nat) returns (bytes: seq<Byte>)
      ensures |bytes| == n
      ensures forall i :: 0 <= i < n ==> bytes[i] == CodeAt(code, start + i)
      ensures bytes == CodeWindow(code, start, n)
    {
      bytes := [];
      for i := 0 to n
        invariant |bytes| == i
        invariant forall j :: 0 <= j < i ==> bytes[j] == CodeAt(code, start + j)
      {
        if start + i < |code| {
          bytes := bytes + [code[start + i]];
        } else {
          bytes := bytes + [0];
        }
      }
      CodeWindowAt(code, start, n);
    }
  }
}

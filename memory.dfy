/** Byte-addressed memory: a buffer that grows with zeros when a word is stored past its end. */
module ByteMemory {
  import opened Words
  import opened Results

  datatype MemoryError = MemoryOverflow | MemoryAccessError

  /** Byte `i` of the memory as a read sees it: the stored byte, or 0 past the end. */
  function ByteAt(mem: seq<Byte>, i: nat): Byte
  {
    if i < |mem| then mem[i] else 0
  }

  /** The buffer after storing `value` big-endian at `[offset, offset + 32)`, grown with zeros as needed. */
  function StoreWord(mem: seq<Byte>, offset: nat, value: Word): seq<Byte>
  {
    var grown := if offset + 32 > |mem| then mem + Zeros(offset + 32 - |mem|) else mem;
    grown[..offset] + ToBigEndian(value, 32) + grown[offset + 32..]
  }

  /** The word that a load at `offset` reads: 0 unless all 32 bytes lie inside the buffer. */
  function LoadWord(mem: seq<Byte>, offset: nat): Word
  {
    if offset + 32 > |mem| then 0
    else
      var v := FromBigEndian(mem[offset..offset + 32]);
      assert v < WORD_MODULUS;
      v
  }

  /**
   * A store grows the buffer to exactly `max(len, offset + 32)`, writes the
   * 32-byte big-endian encoding at `offset`, and keeps every other byte,
   * bytes added by growth reading as 0.
   */
  lemma StoreWordShape(mem: seq<Byte>, offset: nat, value: Word)
    ensures |StoreWord(mem, offset, value)| == if offset + 32 > |mem| then offset + 32 else |mem|
    ensures StoreWord(mem, offset, value)[offset..offset + 32] == ToBigEndian(value, 32)
    ensures forall i :: 0 <= i < |StoreWord(mem, offset, value)| && !(offset <= i < offset + 32) ==>
              StoreWord(mem, offset, value)[i] == ByteAt(mem, i)
  {
    var r := StoreWord(mem, offset, value);
    var grown := if offset + 32 > |mem| then mem + Zeros(offset + 32 - |mem|) else mem;
    assert r == grown[..offset] + ToBigEndian(value, 32) + grown[offset + 32..];
    forall i | 0 <= i < |r| && !(offset <= i < offset + 32)
      ensures r[i] == ByteAt(mem, i)
    {
      assert r[i] == grown[i];
    }
  }

  /** Memory never shrinks. */
  lemma StoreWordGrows(mem: seq<Byte>, offset: nat, value: Word)
    ensures |StoreWord(mem, offset, value)| >= |mem|
    ensures |StoreWord(mem, offset, value)| >= offset + 32
  {
    StoreWordShape(mem, offset, value);
  }

  /** A load at the offset just stored to returns the stored word. */
  lemma LoadAfterStore(mem: seq<Byte>, offset: nat, value: Word)
    ensures LoadWord(StoreWord(mem, offset, value), offset) == value
  {
    StoreWordShape(mem, offset, value);
    FromToBigEndian(value, 32);
  }

  /** A store leaves a load from a disjoint, in-bounds window unchanged. */
  lemma LoadAfterStoreElsewhere(mem: seq<Byte>, offset: nat, value: Word, other: nat)
    requires other + 32 <= |mem|
    requires other + 32 <= offset || offset + 32 <= other
    ensures LoadWord(StoreWord(mem, offset, value), other) == LoadWord(mem, other)
  {
    var r := StoreWord(mem, offset, value);
    StoreWordShape(mem, offset, value);
    assert r[other..other + 32] == mem[other..other + 32] by {
      forall j | other <= j < other + 32 ensures r[j] == mem[j] {
        assert ByteAt(mem, j) == mem[j];
      }
    }
  }

  /** The later of two stores to the same offset wins. */
  lemma StoreOverwrites(mem: seq<Byte>, offset: nat, v1: Word, v2: Word)
    ensures StoreWord(StoreWord(mem, offset, v1), offset, v2) == StoreWord(mem, offset, v2)
  {
    var once := StoreWord(mem, offset, v1);
    var a, b := StoreWord(once, offset, v2), StoreWord(mem, offset, v2);
    StoreWordShape(mem, offset, v1);
    StoreWordShape(once, offset, v2);
    StoreWordShape(mem, offset, v2);
    assert |a| == |b|;
    forall i | 0 <= i < |a| ensures a[i] == b[i] {
      if offset <= i < offset + 32 {
        assert a[i] == a[offset..offset + 32][i - offset];
        assert b[i] == b[offset..offset + 32][i - offset];
      } else {
        assert a[i] == ByteAt(once, i);
      }
    }
  }

  class Memory {
    var memory: seq<Byte>

    constructor ()
      ensures memory == []
    {
      memory := [];
    }

    /** MSTORE's write: grow with zeros to `offset + 32` if needed, then copy the 32 big-endian bytes. */
    method Store(offset: nat, value: Word) returns (r: Result<(), MemoryError>)
      modifies this
      ensures r == Ok(())
      ensures memory == StoreWord(old(memory), offset, value)
    {
      var requiredSize := offset + 32;
      if requiredSize > |memory| {
        memory := memory + Zeros(requiredSize - |memory|);
      }
      ghost var grown := memory;
      var bytes := ToBigEndian(value, 32);
      for i := 0 to 32
        invariant |memory| == |grown|
        invariant memory == grown[..offset] + bytes[..i] + grown[offset + i..]
      {
        memory := memory[offset + i := bytes[i]];
        assert memory == grown[..offset] + bytes[..i + 1] + grown[offset + i + 1..];
      }
      assert bytes[..32] == bytes;
      r := Ok(());
    }

    /** MLOAD's read: the big-endian word at `offset`, or 0 when it would run past the end. */
    method Load(offset: nat) returns (r: Result<Word, MemoryError>)
      ensures r == Ok(LoadWord(memory, offset))
    {
      var requiredSize := offset + 32;
      if requiredSize > |memory| {
        return Ok(0);
      }
      var bytes := Zeros(32);
      for i := 0 to 32
        invariant |bytes| == 32
        invariant forall j :: 0 <= j < i ==> bytes[j] == memory[offset + j]
      {
        bytes := bytes[i := memory[offset + i]];
      }
      assert bytes == memory[offset..offset + 32];
      r := Ok(FromBigEndian(bytes));
    }
  }
}

/** The input bytes of a call, read one byte at a time with zero past the end. */
module CallData {
  import opened Words
  import opened Results

  datatype CalldataError = InvalidCalldataAccess

  /** `Calldata(data)` is `Calldata::new(data)`: it keeps the bytes as given. */
  datatype Calldata = Calldata(data: seq<Byte>)
  {
    /** The byte at `offset`, or 0 past the end; never an error. */
    function ReadByte(offset: nat): (r: Result<Byte, CalldataError>)
      ensures r.Ok?
      ensures offset < |data| ==> r.value == data[offset]
      ensures offset >= |data| ==> r.value == 0
    {
      if offset >= |data| then Ok(0) else Ok(data[offset])
    }
  }

  /**
   * Reads behave as if the calldata were followed by infinitely many zero
   * bytes: appending zeros changes no read.
   */
  lemma ReadByteZeroExtended(c: Calldata, k: nat, offset: nat)
    ensures Calldata(c.data + Zeros(k)).ReadByte(offset) == c.ReadByte(offset)
  {
  }
}

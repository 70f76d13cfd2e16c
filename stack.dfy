/** The interpreter's word stack: a bounded last-in-first-out sequence of 256-bit words. */
module WordStack {
  import opened Words
  import opened Results

  /** The depth bound that a context gives its stack (EVM's 1024). */
  const MAX_DEPTH: nat := 1024

  datatype StackError = StackOverflow | StackUnderflow | IndexError | InvalidStackItem

  /** `s` with its top (last element) exchanged with the element `n` places below it. */
  function Swapped(s: seq<Word>, n: nat): seq<Word>
    requires n < |s|
  {
    var top := |s| - 1;
    s[top := s[top - n]][top - n := s[top]]
  }

  /** A swap exchanges exactly two positions and keeps the length and the multiset of words. */
  lemma SwappedExchanges(s: seq<Word>, n: nat)
    requires n < |s|
    ensures |Swapped(s, n)| == |s|
    ensures Swapped(s, n)[|s| - 1] == s[|s| - 1 - n]
    ensures Swapped(s, n)[|s| - 1 - n] == s[|s| - 1]
    ensures forall i :: 0 <= i < |s| && i != |s| - 1 && i != |s| - 1 - n ==> Swapped(s, n)[i] == s[i]
    ensures multiset(Swapped(s, n)) == multiset(s)
  {
  }

  /** Swapping the same two positions twice restores the stack. */
  lemma SwappedTwice(s: seq<Word>, n: nat)
    requires n < |s|
    ensures Swapped(Swapped(s, n), n) == s
  {
  }

  class Stack {
    /** The words, bottom first; the top of the stack is the last element. */
    var data: seq<Word>
    const maxDepth: nat

    ghost predicate Valid()
      reads this
    {
      |data| <= maxDepth
    }

    constructor (maxDepth: nat)
      ensures Valid() && data == [] && this.maxDepth == maxDepth
    {
      data := [];
      this.maxDepth := maxDepth;
    }

    /** Adds `value` on top, unless the stack already holds `maxDepth` words. */
    method Push(value: Word) returns (r: Result<(), StackError>)
      modifies this
      ensures old(|data|) < maxDepth ==> r == Ok(()) && data == old(data) + [value]
      ensures old(|data|) >= maxDepth ==> r == Err(StackOverflow) && data == old(data)
      ensures old(Valid()) ==> Valid()
    {
      if |data| >= maxDepth {
        return Err(StackOverflow);
      }
      data := data + [value];
      r := Ok(());
    }

    /** Removes and returns the top word, or reports underflow on an empty stack. */
    method Pop() returns (r: Result<Word, StackError>)
      modifies this
      ensures old(data) == [] ==> r == Err(StackUnderflow) && data == old(data)
      ensures old(data) != [] ==> r == Ok(old(data)[|old(data)| - 1]) && data == old(data)[..|old(data)| - 1]
      ensures old(Valid()) ==> Valid()
    {
      if |data| == 0 {
        return Err(StackUnderflow);
      }
      r := Ok(data[|data| - 1]);
      data := data[..|data| - 1];
    }

    /** The word `index` places below the top (0 is the top), without changing the stack. */
    method Peek(index: nat) returns (r: Result<Word, StackError>)
      ensures index >= |data| ==> r == Err(IndexError)
      ensures index < |data| ==> r == Ok(data[|data| - 1 - index])
    {
      if index >= |data| {
        return Err(IndexError);
      }
      r := Ok(data[|data| - 1 - index]);
    }

    /**
     * Exchanges the top with the word `n` places below it. Too few words is
     * reported as `StackOverflow`, as the source does.
     */
    method Swap(n: nat) returns (r: Result<(), StackError>)
      modifies this
      ensures n + 1 > old(|data|) ==> r == Err(StackOverflow) && data == old(data)
      ensures n + 1 <= old(|data|) ==> r == Ok(()) && data == Swapped(old(data), n)
      ensures old(Valid()) ==> Valid()
    {
      if n + 1 > |data| {
        return Err(StackOverflow);
      }
      var top := |data| - 1;
      data := data[top := data[top - n]][top - n := data[top]];
      r := Ok(());
    }
  }

  /** A successful push followed by a pop returns the pushed word and restores the stack. */
  method PushThenPop(s: Stack, v: Word) returns (r: Result<Word, StackError>)
    requires |s.data| < s.maxDepth
    modifies s
    ensures r == Ok(v) && s.data == old(s.data)
  {
    var pushed := s.Push(v);
    r := s.Pop();
  }
}

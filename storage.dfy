/** Persistent storage: a map from word to word in which a missing key reads as zero. */
module PersistentStorage {
  import opened Words
  import opened Results

  datatype StorageError = StorageAccessError

  /** The value a load of `key` reads from `data`: the stored word, or 0 when the key is absent. */
  function Lookup(data: map<Word, Word>, key: Word): Word
  {
    if key in data then data[key] else 0
  }

  /** Every key of an empty storage reads as 0. */
  lemma LookupEmpty(key: Word)
    ensures Lookup(map[], key) == 0
  {
  }

  /** A store is read back at its key, and no other key changes. */
  lemma LookupAfterInsert(data: map<Word, Word>, key: Word, value: Word, other: Word)
    ensures Lookup(data[key := value], key) == value
    ensures other != key ==> Lookup(data[key := value], other) == Lookup(data, other)
  {
  }

  /** The later of two stores to one key wins. */
  lemma InsertOverwrites(data: map<Word, Word>, key: Word, v1: Word, v2: Word)
    ensures data[key := v1][key := v2] == data[key := v2]
  {
  }

  /** A stored key is contained afterwards; a key that is not contained reads as 0. */
  lemma ContainsAndLookup(data: map<Word, Word>, key: Word, value: Word, other: Word)
    ensures key in data[key := value]
    ensures other !in data ==> Lookup(data, other) == 0
  {
  }

  class Storage {
    var data: map<Word, Word>

    constructor ()
      ensures data == map[]
    {
      data := map[];
    }

    /** Reads `slot` of another storage object (the receiver plays no part). */
    method LoadStorage(storage: Storage, slot: Word) returns (r: Result<Word, StorageError>)
      ensures r == Ok(Lookup(storage.data, slot))
    {
      r := storage.Load(slot);
    }

    /** Writes `slot` of another storage object; the receiver is changed only if it is that object. */
    method StoreStorage(storage: Storage, slot: Word, value: Word) returns (r: Result<(), StorageError>)
      modifies storage
      ensures r == Ok(())
      ensures storage.data == old(storage.data)[slot := value]
      ensures storage != this ==> data == old(data)
    {
      r := storage.Store(slot, value);
    }

    /** Inserts or overwrites `key`; it cannot fail. */
    method Store(key: Word, value: Word) returns (r: Result<(), StorageError>)
      modifies this
      ensures r == Ok(())
      ensures data == old(data)[key := value]
    {
      data := data[key := value];
      r := Ok(());
    }

    /** The value at `key`, 0 if absent; it cannot fail. */
    method Load(key: Word) returns (r: Result<Word, StorageError>)
      ensures r == Ok(Lookup(data, key))
    {
      var v := if key in data then data[key] else 0;
      r := Ok(v);
    }

    /** Whether `key` was ever stored; a key that is not contained loads as 0, one that is loads its stored value. */
    function Contains(key: Word): (b: bool)
      reads this
      ensures !b ==> Lookup(data, key) == 0
      ensures b ==> key in data && Lookup(data, key) == data[key]
    {
      key in data
    }
  }

  /** On a storage object: store then load at the same key reads back the stored word. */
  method StoreThenLoad(s: Storage, key: Word, value: Word) returns (r: Result<Word, StorageError>)
    modifies s
    ensures r == Ok(value) && s.Contains(key)
    ensures forall k :: k != key ==> Lookup(s.data, k) == Lookup(old(s.data), k)
  {
    var stored := s.Store(key, value);
    r := s.Load(key);
  }
}

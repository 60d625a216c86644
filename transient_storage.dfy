/** Transient storage as a map keyed by (address, key); an unset key reads as zero. */
module TransientStorage {
  import opened EvmTypes

  type Storage = map<(Address, Word), Word>

  /** The value stored at `key` for `address`, zero when the slot was never written. */
  function Get(s: Storage, address: Address, key: Word): (r: Word)
    ensures (address, key) !in s ==> r == 0
  {
    if (address, key) in s then s[(address, key)] else 0
  }

  /** Overwrite one slot. */
  function Set(s: Storage, address: Address, key: Word, value: Word): (r: Storage)
    ensures Get(r, address, key) == value
    ensures forall a: Address, k: Word :: (a, k) != (address, key) ==> Get(r, a, k) == Get(s, a, k)
  {
    s[(address, key) := value]
  }

  /** The storage after writing each (key, value) pair of `writes` in order. */
  function SetAll(s: Storage, address: Address, writes: seq<(Word, Word)>): (r: Storage)
    decreases |writes|
  {
    if writes == [] then s
    else
      var last := writes[|writes| - 1];
      Set(SetAll(s, address, writes[..|writes| - 1]), address, last.0, last.1)
  }

  /** The value most recently written to `key` in `writes`, if any. */
  function LastWrite(writes: seq<(Word, Word)>, key: Word): (r: Option<Word>)
    decreases |writes|
  {
    if writes == [] then None
    else if writes[|writes| - 1].0 == key then Some(writes[|writes| - 1].1)
    else LastWrite(writes[..|writes| - 1], key)
  }

  /** After any sequence of writes for one address, a slot holds its last written value,
      or its earlier value when it was never written. */
  lemma {:induction false} SetAllLastWriteWins(s: Storage, address: Address, writes: seq<(Word, Word)>, key: Word)
    ensures Get(SetAll(s, address, writes), address, key) ==
            (match LastWrite(writes, key) case Some(v) => v case None => Get(s, address, key))
    decreases |writes|
  {
    if writes != [] {
      SetAllLastWriteWins(s, address, writes[..|writes| - 1], key);
    }
  }

  /** Writes for one address leave every slot of every other address as it was. */
  lemma {:induction false} SetAllOtherAccountsUntouched(s: Storage, address: Address, writes: seq<(Word, Word)>,
                                                        other: Address, key: Word)
    requires other != address
    ensures Get(SetAll(s, address, writes), other, key) == Get(s, other, key)
    decreases |writes|
  {
    if writes != [] {
      SetAllOtherAccountsUntouched(s, address, writes[..|writes| - 1], other, key);
    }
  }
}

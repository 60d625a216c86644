/** The part of a message frame that the modelled operations touch: a fixed-capacity
    operand stack, the remaining gas, the gas refund and the transient storage. */
module Frames {
  import opened EvmTypes
  import TransientStorage

  class MessageFrame {
    /** The account whose code runs in this frame. */
    const recipient: Address
    const initialGas: Long
    var remainingGas: Long
    var gasRefund: Long
    var transientStorage: TransientStorage.Storage

    /** The operand stack: `entries[..size]`, the top at `entries[size - 1]`. */
    const entries: array<Word>
    var size: nat

    ghost predicate Valid()
      reads this
    {
      entries.Length == MaxStackSize && size <= MaxStackSize
    }

    /** The stack contents, bottom first. */
    ghost function Stack(): (s: seq<Word>)
      requires Valid()
      reads this, entries
      ensures |s| == size <= MaxStackSize
    {
      entries[..size]
    }

    /** The transient value of `key` for the recipient account. */
    function TransientStorageValue(key: Word): (r: Word)
      reads this
      ensures (recipient, key) !in transientStorage ==> r == 0
      ensures (recipient, key) in transientStorage ==> r == transientStorage[(recipient, key)]
    {
      TransientStorage.Get(transientStorage, recipient, key)
    }

    /** A frame for `recipient` with an empty stack, no refund and empty transient storage. */
    constructor (recipient: Address, initialGas: Long, remainingGas: Long)
      ensures Valid() && fresh(entries)
      ensures this.recipient == recipient && this.initialGas == initialGas
      ensures this.remainingGas == remainingGas && gasRefund == 0
      ensures Stack() == [] && transientStorage == map[]
    {
      this.recipient := recipient;
      this.initialGas := initialGas;
      this.remainingGas := remainingGas;
      gasRefund := 0;
      transientStorage := map[];
      entries := new Word[MaxStackSize];
      size := 0;
    }

    /** Removes the top word; `None` stands for the implementation's underflow exception,
        which leaves the stack as it was. */
    method PopStackItem() returns (r: Option<Word>)
      requires Valid()
      modifies this`size
      ensures Valid()
      ensures old(size) == 0 ==> r == None && Stack() == old(Stack())
      ensures old(size) > 0 ==>
                r == Some(old(Stack())[old(size) - 1]) && Stack() == old(Stack())[..old(size) - 1]
    {
      if size == 0 {
        r := None;
      } else {
        size := size - 1;
        r := Some(entries[size]);
      }
    }

    /** Pushes `w`; `false` stands for the implementation's overflow exception, which
        leaves the stack as it was. */
    method PushStackItem(w: Word) returns (ok: bool)
      requires Valid()
      modifies this`size, entries
      ensures Valid()
      ensures ok <==> old(size) < MaxStackSize
      ensures Stack() == if ok then old(Stack()) + [w] else old(Stack())
    {
      if size == MaxStackSize {
        ok := false;
      } else {
        entries[size] := w;
        size := size + 1;
        ok := true;
        assert Stack() == old(Stack()) + [w];
      }
    }

    /** Overwrites the recipient's transient slot `key`. */
    method SetTransientStorageValue(key: Word, value: Word)
      modifies this`transientStorage
      ensures transientStorage == TransientStorage.Set(old(transientStorage), recipient, key, value)
    {
      transientStorage := TransientStorage.Set(transientStorage, recipient, key, value);
    }
  }
}

/** TSTORE (EIP-1153): write the popped value to the recipient's transient slot for the
    popped key. Its source is not part of this model; this follows its tests and the
    pattern of TLOAD. */
module TStoreOperation {
  import opened EvmTypes
  import GasCalculator
  import TransientStorage
  import Frames

  /** Pops the key from the top, then the value, then checks gas; on success overwrites
      the slot. Every result carries the TSTORE cost, and no gas refund is ever recorded. */
  method Execute(frame: Frames.MessageFrame) returns (r: OperationResult)
    requires frame.Valid()
    modifies frame`size, frame`transientStorage
    ensures frame.Valid()
    ensures r.gasCost == GasCalculator.TstoreOperationGasCost()
    ensures r.haltReason != Some(TooManyStackItems)
    ensures frame.remainingGas == old(frame.remainingGas) && frame.gasRefund == old(frame.gasRefund)
    ensures var s := old(frame.Stack());
            |s| < 2 ==>
              r.haltReason == Some(InsufficientStackItems) &&
              frame.Stack() == (if |s| == 0 then s else []) &&
              frame.transientStorage == old(frame.transientStorage)
    ensures var s := old(frame.Stack());
            |s| >= 2 && frame.remainingGas < GasCalculator.TstoreOperationGasCost() ==>
              r.haltReason == Some(InsufficientGas) &&
              frame.Stack() == s[..|s| - 2] &&
              frame.transientStorage == old(frame.transientStorage)
    ensures var s := old(frame.Stack());
            |s| >= 2 && frame.remainingGas >= GasCalculator.TstoreOperationGasCost() ==>
              r.haltReason == None &&
              frame.Stack() == s[..|s| - 2] &&
              frame.transientStorage ==
                TransientStorage.Set(old(frame.transientStorage), frame.recipient, s[|s| - 1], s[|s| - 2])
  {
    ghost var s := frame.Stack();
    var cost := GasCalculator.TstoreOperationGasCost();
    var key := frame.PopStackItem();
    if key.None? {
      return OperationResult(cost, Some(InsufficientStackItems));
    }
    var value := frame.PopStackItem();
    if value.None? {
      return OperationResult(cost, Some(InsufficientStackItems));
    }
    assert s[..|s| - 1][..|s| - 2] == s[..|s| - 2];
    if frame.remainingGas < cost {
      return OperationResult(cost, Some(InsufficientGas));
    }
    frame.SetTransientStorageValue(key.value, value.value);
    return OperationResult(cost, None);
  }
}

/** TLOAD (opcode 0xb3, an early draft of EIP-1153): push the recipient's transient
    value for the popped key. */
module TLoadOperation {
  import opened EvmTypes
  import GasCalculator
  import Frames

  /** The descriptor TLOAD's constructor passes on: 1 input, 1 output, size 1, and a cost
      computed by `Execute`. */
  function Descriptor(): (d: OperationDescriptor)
    ensures d.opcode == 0xb3 && d.name == "TLOAD"
    ensures d.stackItemsConsumed == 1 && d.stackItemsProduced == 1 && d.opSize == 1
    ensures NetStackEffect(d) == 0 && d.cost.DynamicCost?
  {
    OperationDescriptor(0xb3, "TLOAD", 1, 1, 1, DynamicCost)
  }

  /** Pops the key before the gas check, so an out-of-gas halt has consumed the key and
      pushed nothing. Every result carries the TLOAD cost. Neither the gas counter nor
      the transient storage is written. */
  method Execute(frame: Frames.MessageFrame) returns (r: OperationResult)
    requires frame.Valid()
    modifies frame`size, frame.entries
    ensures frame.Valid()
    ensures r.gasCost == GasCalculator.TloadOperationGasCost()
    ensures r.haltReason != Some(TooManyStackItems)
    ensures frame.remainingGas == old(frame.remainingGas)
    ensures frame.transientStorage == old(frame.transientStorage)
    ensures var s := old(frame.Stack());
            |s| == 0 ==> r.haltReason == Some(InsufficientStackItems) && frame.Stack() == s
    ensures var s := old(frame.Stack());
            |s| > 0 && frame.remainingGas < GasCalculator.TloadOperationGasCost() ==>
              r.haltReason == Some(InsufficientGas) && frame.Stack() == s[..|s| - 1]
    ensures var s := old(frame.Stack());
            |s| > 0 && frame.remainingGas >= GasCalculator.TloadOperationGasCost() ==>
              r.haltReason == None &&
              |frame.Stack()| == |s| + NetStackEffect(Descriptor()) &&
              frame.Stack() == s[..|s| - 1] + [frame.TransientStorageValue(s[|s| - 1])]
  {
    var cost := GasCalculator.TloadOperationGasCost();
    var key := frame.PopStackItem();
    if key.None? {
      return OperationResult(cost, Some(InsufficientStackItems));
    }
    if frame.remainingGas < cost {
      return OperationResult(cost, Some(InsufficientGas));
    }
    var pushed := frame.PushStackItem(frame.TransientStorageValue(key.value));
    if !pushed {
      return OperationResult(cost, Some(TooManyStackItems));
    }
    return OperationResult(cost, None);
  }
}

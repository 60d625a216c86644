/** Values shared by the EVM model: words, addresses, Java's `long`, halt reasons,
    operation results and operation descriptors. */
module EvmTypes {

  /** A 256-bit EVM word (a `UInt256` / `Bytes32` in the implementation). */
  type Word = bv256

  /** A 20-byte account address. */
  type Address = bv160

  /** A signed 64-bit Java `long`, the type of every gas amount. */
  type Long = x: int | -0x8000_0000_0000_0000 <= x <= 0x7fff_ffff_ffff_ffff

  /** The default maximum operand stack depth of a message frame. */
  const MaxStackSize: nat := 1024

  datatype Option<+T> = None | Some(value: T)

  /** The exceptional halt reasons that the modelled operations can report. */
  datatype HaltReason = InsufficientGas | InsufficientStackItems | TooManyStackItems

  /** The outcome of executing one operation: the gas it charges and, when execution
      must stop, the reason. No halt reason means "continue with the next instruction". */
  datatype OperationResult = OperationResult(gasCost: Long, haltReason: Option<HaltReason>)

  /** How an operation's gas cost is determined. */
  datatype CostStrategy = DynamicCost | FixedCost(gas: Long)

  /** The immutable descriptor an operation passes to its super-constructor. */
  datatype OperationDescriptor = OperationDescriptor(
    opcode: bv8,
    name: string,
    stackItemsConsumed: nat,
    stackItemsProduced: nat,
    opSize: nat,
    cost: CostStrategy)

  /** How many words an operation adds to (or, when negative, removes from) the stack. */
  function NetStackEffect(d: OperationDescriptor): (n: int)
    ensures d.stackItemsConsumed + n == d.stackItemsProduced
  {
    d.stackItemsProduced - d.stackItemsConsumed
  }
}

# EVM transient storage and XOR: a Dafny model

This project models the part of the Besu EVM that executes single operations on a
message frame:

- the Shanghai gas calculator, which prices TLOAD and TSTORE (EIP-1153) at the warm
  storage read cost of EIP-2929 and inherits every other cost from London;
- TLOAD (opcode 0xb3), which pops a key and pushes the recipient's transient value;
- XOR (opcode 0x18), which replaces the top two stack words by their bitwise
  exclusive-or;
- TSTORE, which pops a key and then a value and overwrites a transient slot;
- the transient-storage test scenarios, each written as a method over a fresh frame whose
  postcondition is the scenario's assertion.

Modules:

- `EvmTypes`: 256-bit words (`bv256`), addresses, Java's `long`, and the halt reasons.
  It also holds `OperationResult` and the operation descriptor.
- `GasCalculator`: the cost constants, and the London and Shanghai schedules as an override chain.
- `TransientStorage`: transient storage as a map keyed by (address, key). An unset slot reads as zero.
- `Frames`: the `MessageFrame` class. Its operand stack lives in a fixed array of 1024 words.
  It also holds the remaining gas, the gas refund and the transient storage.
  Underflow and overflow exceptions become `None` and `false` results of `PopStackItem` and `PushStackItem`.
- `TLoadOperation`, `XorOperation`, `TStoreOperation`: the operations, as methods that change the frame.
- `TStoreOperationTest`: the test scenarios.

Three facts about the code shape the model:

- The tests push the value first and the key last (TStoreOperationTest.java:157-159, 186-188).
  TSTORE therefore pops the key from the top and then the value.
- TLOAD pops its key before its gas check (TLoadOperation.java:43-44).
  An out-of-gas TLOAD has therefore already consumed its key.
- The tests build their operations with an EIP-1153 gas calculator (TStoreOperationTest.java:44), which is not part of this model.
  The model prices them with the Shanghai calculator. Its cost of 100 is the value the tests assert (TStoreOperationTest.java:193).

## Model

| member | source | states |
|---|---|---|
| GasCalculator.LondonCost | evm/src/main/java/org/hyperledger/besu/evm/gascalculator/ShanghaiGasCalculator.java:17 | the inherited London schedule answers every entry except the two transient-storage ones, which this model leaves undefined for London |
| GasCalculator.TloadOperationGasCost | evm/src/main/java/org/hyperledger/besu/evm/gascalculator/ShanghaiGasCalculator.java:19-28 | the TLOAD cost is the inherited warm storage read cost, the same value London charges for a warm read; it takes no frame or slot, so every query gives the same value |
| GasCalculator.TstoreOperationGasCost | evm/src/main/java/org/hyperledger/besu/evm/gascalculator/ShanghaiGasCalculator.java:20-33 | the TSTORE cost is the inherited warm storage read cost; it takes no frame or slot, so every query gives the same value |
| GasCalculator.Cost | evm/src/main/java/org/hyperledger/besu/evm/gascalculator/ShanghaiGasCalculator.java:17-33 | Shanghai answers the warm read cost for TLOAD and TSTORE, answers London's cost for every other entry, and defines every entry |
| GasCalculator.ShanghaiOverridesOnlyTransientCosts | evm/src/main/java/org/hyperledger/besu/evm/gascalculator/ShanghaiGasCalculator.java:17-33 | every entry other than TLOAD and TSTORE equals London's; the converse, that Shanghai differs from London at those two, holds only because London's answers there are undefined in this model |
| GasCalculator.TransientCostsAgree | evm/src/main/java/org/hyperledger/besu/evm/gascalculator/ShanghaiGasCalculator.java:19-20 | the TLOAD and TSTORE costs are equal, equal to 100, and equal to Shanghai's warm read cost |
| TransientStorage.Get | evm/src/main/java/org/hyperledger/besu/evm/operation/TLoadOperation.java:48 | a slot that was never written reads as zero |
| TransientStorage.Set | ethereum/core/src/test/java/org/hyperledger/besu/ethereum/vm/operations/TStoreOperationTest.java:117-141 | after a write the slot reads the written value and every other (address, key) slot reads as before |
| TransientStorage.SetAllLastWriteWins | ethereum/core/src/test/java/org/hyperledger/besu/ethereum/vm/operations/TStoreOperationTest.java:145-169 | after any sequence of writes for one account, a slot holds its last written value, or its earlier value if it was never written |
| TransientStorage.SetAllOtherAccountsUntouched | ethereum/core/src/test/java/org/hyperledger/besu/ethereum/vm/operations/TStoreOperationTest.java:117-169 | any sequence of writes for one account leaves every slot of every other account as it was |
| Frames.MessageFrame.constructor | ethereum/core/src/test/java/org/hyperledger/besu/ethereum/vm/operations/TStoreOperationTest.java:51-71 | a new frame has the given recipient and gas, an empty stack, no refund and empty transient storage |
| Frames.MessageFrame.PopStackItem | evm/src/main/java/org/hyperledger/besu/evm/operation/TLoadOperation.java:43-54 | on a non-empty stack returns the top word and removes it; on an empty stack reports underflow and changes nothing |
| Frames.MessageFrame.PushStackItem | evm/src/main/java/org/hyperledger/besu/evm/operation/TLoadOperation.java:48-56 | succeeds exactly when the stack is below 1024 words, and then appends the word; otherwise reports overflow and changes nothing |
| Frames.MessageFrame.TransientStorageValue | evm/src/main/java/org/hyperledger/besu/evm/operation/TLoadOperation.java:42-48 | the recipient's transient value for a key: the stored word when the slot was written, zero otherwise |
| Frames.MessageFrame.SetTransientStorageValue | ethereum/core/src/test/java/org/hyperledger/besu/ethereum/vm/operations/TStoreOperationTest.java:117-127 | overwrites the recipient's slot for the key and nothing else |
| TLoadOperation.Descriptor | evm/src/main/java/org/hyperledger/besu/evm/operation/TLoadOperation.java:34-36 | opcode 0xb3, "TLOAD", one input, one output, size one, a dynamic cost; net stack effect zero |
| TLoadOperation.Execute | evm/src/main/java/org/hyperledger/besu/evm/operation/TLoadOperation.java:38-58 | every result carries the TLOAD cost and none is too-many-stack-items; an empty stack halts with insufficient stack items and leaves the stack alone; with too little gas the key is already popped, nothing is pushed and the halt is insufficient gas; otherwise the top key is replaced by its transient value; gas and transient storage are never written |
| XorOperation.Descriptor | evm/src/main/java/org/hyperledger/besu/evm/operation/XorOperation.java:34-36 | opcode 0x18, "XOR", two inputs, one output, fixed cost equal to the calculator's very-low tier; net stack effect minus one |
| XorOperation.Xor | evm/src/main/java/org/hyperledger/besu/evm/operation/XorOperation.java:54 | the exclusive-or of two words: zero is its identity, a word cancels itself, and the operand order does not matter |
| XorOperation.XorSuccess | evm/src/main/java/org/hyperledger/besu/evm/operation/XorOperation.java:26-27 | the success result has no halt reason and charges the descriptor's fixed cost (3) |
| XorOperation.StaticOperation | evm/src/main/java/org/hyperledger/besu/evm/operation/XorOperation.java:50-59 | given at least two words, the top two are replaced by the exclusive-or of the top and the second. The depth drops by one and the words below are unchanged. The result is always the success result |
| XorOperation.XorExample | evm/src/main/java/org/hyperledger/besu/evm/operation/XorOperation.java:50-59 | 0x05 and 0x03 on the stack give 0x06, at a cost of 3 and with no halt |
| XorOperation.XorCommutes | evm/src/main/java/org/hyperledger/besu/evm/operation/XorOperation.java:54 | the pushed word does not depend on the order of the two operands |
| TStoreOperation.Execute | ethereum/core/src/test/java/org/hyperledger/besu/ethereum/vm/operations/TStoreOperationTest.java:73-193 | every result carries the TSTORE cost and none is too-many-stack-items. Fewer than two words halt with insufficient stack items. With two or more, the key (top) and value (second) are popped. With too little gas the halt is insufficient gas and storage is unchanged; otherwise the recipient's slot for the key is overwritten with the value. Gas and refund are never written |
| TStoreOperationTest.TstoreInsufficientGas | ethereum/core/src/test/java/org/hyperledger/besu/ethereum/vm/operations/TStoreOperationTest.java:73-85 | with 99 gas left TSTORE halts with insufficient gas and the transient storage stays empty |
| TStoreOperationTest.TStoreSimpleTest | ethereum/core/src/test/java/org/hyperledger/besu/ethereum/vm/operations/TStoreOperationTest.java:87-99 | with enough gas and two words TSTORE succeeds |
| TStoreOperationTest.TLoadEmpty | ethereum/core/src/test/java/org/hyperledger/besu/ethereum/vm/operations/TStoreOperationTest.java:101-114 | TLOAD of a key never written succeeds and pushes zero |
| TStoreOperationTest.TStoreTLoad | ethereum/core/src/test/java/org/hyperledger/besu/ethereum/vm/operations/TStoreOperationTest.java:116-142 | after storing 1 at key 1, TLOAD of key 1 gives 1 and TLOAD of key 2 gives 0 |
| TStoreOperationTest.TStoreUpdate | ethereum/core/src/test/java/org/hyperledger/besu/ethereum/vm/operations/TStoreOperationTest.java:144-170 | storing 1 and then 2 at key 1 makes TLOAD of key 1 give 2; the value is pushed first and the key last |
| TStoreOperationTest.NoGasRefundFromTransientState | ethereum/core/src/test/java/org/hyperledger/besu/ethereum/vm/operations/TStoreOperationTest.java:172-194 | zeroing a slot that held 1 succeeds, costs exactly 100 and leaves the refund at zero |

## Left out

- World-state plumbing is left out: the world updater, account lookup, and committing an account with a balance.
  Transient storage is a field of the frame, keyed by (address, key), and the recipient account is taken to exist.
  The case of a missing account is not modelled.
- Transient storage is shared by all frames of one transaction. That sharing between frames is not modelled.
  Neither is clearing the storage at the end of the transaction.
- The interpreter loop, `AbstractOperation` and `AbstractFixedCostOperation` are not part of this model.
  This covers gas deduction, the arity and gas pre-checks, and advancing the instruction pointer.
  XOR's arity pre-check appears as the requirement of `StaticOperation`.
  `executeFixedCostOperation` only delegates to `staticOperation` and is not modelled separately.
- The London, Berlin and Frontier calculators are not part of this model. The warm storage read cost (100, EIP-2929)
  and the very-low tier cost (3, Yellow Paper) are taken as constants.
  London's answer for the two transient-storage queries is modelled as undefined.
  Only the entries the modelled operations use are in the schedules.
- XorOperation.Descriptor: XOR's constructor does not pass an instruction size; the model uses 1, the size of an instruction without immediates.
- TSTORE's own source is not part of this model. `TStoreOperation.Execute` is reconstructed from its tests and pattern-matched on TLOAD.
  TSTORE's opcode and descriptor are therefore not modelled. Neither is the static-call restriction of EIP-1153.
- The experimental-feature flag that turns EIP-1153 on is left out, and so is persistent-storage refund accounting.
  The only refund-related fact kept is that TSTORE never changes the frame's refund.
- The IBFT prepare message wrapper is wire encoding for consensus. It has no execution logic and is not modelled.

/** The transient-storage test scenarios, each run on a fresh frame for account
    0x18675309 with 10000 initial gas. Each method's postcondition is what the
    scenario asserts. */
module TStoreOperationTest {
  import opened EvmTypes
  import TransientStorage
  import Frames
  import TLoadOperation
  import TStoreOperation

  const TestAddress: Address := 0x18675309
  const InitialGas: Long := 10_000

  /** TSTORE with 99 gas remaining against a cost of 100 halts for lack of gas and
      leaves the storage empty. */
  method TstoreInsufficientGas() returns (r: OperationResult, stored: Word, storage: TransientStorage.Storage)
    ensures r.haltReason == Some(InsufficientGas)
    ensures stored == 0 && storage == map[]
  {
    var frame := new Frames.MessageFrame(TestAddress, InitialGas, 99);
    var ok := frame.PushStackItem(0);
    ok := frame.PushStackItem(1);
    r := TStoreOperation.Execute(frame);
    stored := frame.TransientStorageValue(1);
    storage := frame.transientStorage;
  }

  /** TSTORE with enough gas and two stack items succeeds. */
  method TStoreSimpleTest() returns (r: OperationResult)
    ensures r.haltReason == None
  {
    var frame := new Frames.MessageFrame(TestAddress, InitialGas, 10_000);
    var ok := frame.PushStackItem(0);
    ok := frame.PushStackItem(1);
    r := TStoreOperation.Execute(frame);
  }

  /** TLOAD of a key never written succeeds and pushes zero. */
  method TLoadEmpty() returns (r: OperationResult, loaded: Option<Word>)
    ensures r.haltReason == None
    ensures loaded == Some(0)
  {
    var frame := new Frames.MessageFrame(TestAddress, InitialGas, 10_000);
    var ok := frame.PushStackItem(1);
    r := TLoadOperation.Execute(frame);
    loaded := frame.PopStackItem();
  }

  /** Storing 1 at key 1 makes TLOAD of key 1 give 1 while key 2 still gives 0. */
  method TStoreTLoad() returns (store: OperationResult, load1: OperationResult, loaded1: Option<Word>,
                                load2: OperationResult, loaded2: Option<Word>)
    ensures store.haltReason == None
    ensures load1.haltReason == None && loaded1 == Some(1)
    ensures load2.haltReason == None && loaded2 == Some(0)
  {
    var frame := new Frames.MessageFrame(TestAddress, InitialGas, 10_000);
    var ok := frame.PushStackItem(1);
    ok := frame.PushStackItem(1);
    store := TStoreOperation.Execute(frame);

    ok := frame.PushStackItem(1);
    load1 := TLoadOperation.Execute(frame);
    loaded1 := frame.PopStackItem();

    ok := frame.PushStackItem(2);
    load2 := TLoadOperation.Execute(frame);
    loaded2 := frame.PopStackItem();
  }

  /** Storing 1 and then 2 at key 1 makes TLOAD give 2: the last write wins, and the
      key is the word pushed last. */
  method TStoreUpdate() returns (store1: OperationResult, store2: OperationResult,
                                 load: OperationResult, loaded: Option<Word>)
    ensures store1.haltReason == None && store2.haltReason == None
    ensures load.haltReason == None && loaded == Some(2)
  {
    var frame := new Frames.MessageFrame(TestAddress, InitialGas, 10_000);
    var ok := frame.PushStackItem(1);
    ok := frame.PushStackItem(1);
    store1 := TStoreOperation.Execute(frame);

    ok := frame.PushStackItem(2);
    ok := frame.PushStackItem(1);
    store2 := TStoreOperation.Execute(frame);

    ok := frame.PushStackItem(1);
    load := TLoadOperation.Execute(frame);
    loaded := frame.PopStackItem();
  }

  /** Zeroing a slot that held 1 succeeds, charges exactly 100 gas and records no refund. */
  method NoGasRefundFromTransientState() returns (store1: OperationResult, store2: OperationResult,
                                                  refund: Long, stored: Word)
    ensures store1.haltReason == None && store2.haltReason == None
    ensures store2.gasCost == 100
    ensures refund == 0 && stored == 0
  {
    var frame := new Frames.MessageFrame(TestAddress, InitialGas, 10_000);
    var ok := frame.PushStackItem(1);
    ok := frame.PushStackItem(1);
    store1 := TStoreOperation.Execute(frame);

    ok := frame.PushStackItem(0);
    ok := frame.PushStackItem(1);
    store2 := TStoreOperation.Execute(frame);
    refund := frame.gasRefund;
    stored := frame.TransientStorageValue(1);
  }
}

/** XOR (opcode 0x18, Yellow Paper Appendix H): bitwise exclusive-or of the top two words. */
module XorOperation {
  import opened EvmTypes
  import GasCalculator
  import Frames

  /** The descriptor XOR's constructor passes on: 2 inputs, 1 output, a fixed cost of the
      calculator's very-low tier. */
  function Descriptor(): (d: OperationDescriptor)
    ensures d.opcode == 0x18 && d.name == "XOR"
    ensures d.stackItemsConsumed == 2 && d.stackItemsProduced == 1 && d.opSize == 1
    ensures NetStackEffect(d) == -1
    ensures d.cost == FixedCost(GasCalculator.Cost(GasCalculator.Shanghai, GasCalculator.VeryLowTier).value)
  {
    OperationDescriptor(0x18, "XOR", 2, 1, 1, FixedCost(GasCalculator.VeryLowTierGasCost))
  }

  /** The word XOR pushes: the bitwise exclusive-or of its operands. Zero is its
      identity, a word cancels itself, and the order of the operands does not matter. */
  function Xor(a: Word, b: Word): (r: Word)
    ensures b == 0 ==> r == a
    ensures a == b ==> r == 0
    ensures r == b ^ a
  {
    XorIdentity(a, b);
    XorCancels(a, b);
    XorCommutes(a, b);
    a ^ b
  }

  /** The one result every XOR returns: 3 gas, no halt. */
  function XorSuccess(): (r: OperationResult)
    ensures r.haltReason == None
    ensures Descriptor().cost == FixedCost(r.gasCost)
  {
    OperationResult(3, None)
  }

  /** Replaces the top two words by their exclusive-or. The arity check is the caller's. */
  method StaticOperation(frame: Frames.MessageFrame) returns (r: OperationResult)
    requires frame.Valid() && |frame.Stack()| >= 2
    modifies frame`size, frame.entries
    ensures frame.Valid()
    ensures r == XorSuccess()
    ensures var s := old(frame.Stack());
            |frame.Stack()| == |s| + NetStackEffect(Descriptor()) &&
            frame.Stack() == s[..|s| - 2] + [Xor(s[|s| - 1], s[|s| - 2])]
  {
    ghost var s := frame.Stack();
    var value0 := frame.PopStackItem();
    assert value0 == Some(s[|s| - 1]) && frame.Stack() == s[..|s| - 1];
    var value1 := frame.PopStackItem();
    assert value1 == Some(s[|s| - 2]) && frame.Stack() == s[..|s| - 2];
    var result := Xor(value0.value, value1.value);
    var pushed := frame.PushStackItem(result);
    assert frame.Stack() == s[..|s| - 2] + [result];
    return XorSuccess();
  }

  /** 0x05 XOR 0x03 on an otherwise empty stack leaves the single word 0x06. */
  method XorExample() returns (r: OperationResult, top: Option<Word>, depth: nat)
    ensures r.gasCost == 3 && r.haltReason == None
    ensures top == Some(0x06) && depth == 0
  {
    var frame := new Frames.MessageFrame(0, 10_000, 10_000);
    var ok := frame.PushStackItem(0x05);
    ok := frame.PushStackItem(0x03);
    r := StaticOperation(frame);
    top := frame.PopStackItem();
    depth := frame.size;
  }

  /** The result does not depend on the order of the two operands. */
  lemma XorCommutes(a: Word, b: Word)
    ensures a ^ b == b ^ a
  {
  }

  /** Zero is the identity of exclusive-or. */
  lemma XorIdentity(a: Word, b: Word)
    ensures b == 0 ==> a ^ b == a
  {
  }

  /** A word xor-ed with itself is zero. */
  lemma XorCancels(a: Word, b: Word)
    ensures a == b ==> a ^ b == 0
  {
  }
}

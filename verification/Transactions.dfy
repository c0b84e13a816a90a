/** Transactions as bitcoin/BRTransaction.h declares them, and their estimated sizes. */
module Transactions {
  import opened Wrappers
  import opened Bytes

  const TX_OUTPUT_SIZE: nat := 34
  const TX_INPUT_SIZE: nat := 148
  const TX_FEE_PER_KB: nat := 1000
  const TX_MIN_OUTPUT_AMOUNT: nat := TX_FEE_PER_KB * 3 * (TX_OUTPUT_SIZE + TX_INPUT_SIZE) / 1000
  const TX_MAX_SIZE: nat := 100000
  const TX_UNCONFIRMED: nat := 0x7fff_ffff
  const TX_MAX_LOCK_HEIGHT: nat := 500000000
  const UINT32_MAX: nat := 0xffff_ffff

  /** `None` models a NULL pointer. */
  datatype TxInput = TxInput(txHash: Hash, index: nat, amount: nat, script: Option<seq<Byte>>,
                             signature: Option<seq<Byte>>, wit: Option<seq<Byte>>, sequence: nat)

  datatype TxOutput = TxOutput(amount: nat, script: seq<Byte>)

  datatype Tx = Tx(txHash: Hash, version: nat, inputs: seq<TxInput>, outputs: seq<TxOutput>, lockTime: nat,
                   blockHeight: nat, timestamp: nat)

  /** `BRVarIntSize`: length of a CompactSize integer. */
  function VarIntSize(i: nat): (r: nat)
    ensures r == 1 || r == 3 || r == 5 || r == 9
  {
    if i < 0xfd then 1 else if i <= 0xffff then 3 else if i <= 0xffff_ffff then 5 else 9
  }

  predicate IsSignedInput(i: TxInput) {
    i.signature.Some? && i.wit.Some?
  }

  /** `BRTransactionIsSigned`. */
  predicate IsSigned(tx: Tx) {
    forall i :: 0 <= i < |tx.inputs| ==> IsSignedInput(tx.inputs[i])
  }

  /** The input spends a witness program (its script starts with OP_0). */
  predicate IsWitnessProgram(i: TxInput) {
    i.script.Some? && |i.script.value| > 0 && i.script.value[0] == 0
  }

  /** Bytes an input adds outside the witness. */
  function InputSize(i: TxInput): nat {
    if IsSignedInput(i) then 32 + 4 + VarIntSize(|i.signature.value|) + |i.signature.value| + 4
    else if IsWitnessProgram(i) then 0
    else TX_INPUT_SIZE
  }

  /** Bytes an input adds to the witness. */
  function WitnessSize(i: TxInput): nat {
    if IsSignedInput(i) then |i.wit.value|
    else if IsWitnessProgram(i) then TX_INPUT_SIZE
    else 0
  }

  function InputsSize(s: seq<TxInput>): nat {
    if s == [] then 0 else InputsSize(s[..|s| - 1]) + InputSize(s[|s| - 1])
  }

  function WitnessesSize(s: seq<TxInput>): nat {
    if s == [] then 0 else WitnessesSize(s[..|s| - 1]) + WitnessSize(s[|s| - 1])
  }

  function OutputSize(o: TxOutput): nat { 8 + VarIntSize(|o.script|) + |o.script| }

  function OutputsSize(s: seq<TxOutput>): nat {
    if s == [] then 0 else OutputsSize(s[..|s| - 1]) + OutputSize(s[|s| - 1])
  }

  /** Bytes outside the witness. */
  function BaseSize(tx: Tx): nat {
    8 + VarIntSize(|tx.inputs|) + VarIntSize(|tx.outputs|) + InputsSize(tx.inputs) + OutputsSize(tx.outputs)
  }

  /** Witness bytes with marker, flag and one count per input. */
  function WitnessTotal(tx: Tx): nat {
    var w := WitnessesSize(tx.inputs);
    if w > 0 then w + 2 + |tx.inputs| else 0
  }

  function Size(tx: Tx): nat { BaseSize(tx) + WitnessTotal(tx) }

  /** Virtual size of BIP 141: witness bytes count a quarter, rounded up. */
  function VSize(tx: Tx): nat { (BaseSize(tx) * 4 + WitnessTotal(tx) + 3) / 4 }

  /** The loops shared by `BRTransactionSize` and `BRTransactionVSize`. */
  method MeasureParts(tx: Tx) returns (size: nat, witSize: nat)
    ensures size == BaseSize(tx) && witSize == WitnessTotal(tx)
  {
    size, witSize := 8 + VarIntSize(|tx.inputs|) + VarIntSize(|tx.outputs|), 0;
    ghost var header := size;
    for i := 0 to |tx.inputs|
      invariant size == header + InputsSize(tx.inputs[..i])
      invariant witSize == WitnessesSize(tx.inputs[..i])
    {
      var input := tx.inputs[i];
      assert tx.inputs[..i + 1][..i] == tx.inputs[..i];
      if input.signature.Some? && input.wit.Some? {
        size := size + 32 + 4 + VarIntSize(|input.signature.value|) + |input.signature.value| + 4;
        witSize := witSize + |input.wit.value|;
      } else if input.script.Some? && |input.script.value| > 0 && input.script.value[0] == 0 {
        witSize := witSize + TX_INPUT_SIZE;
      } else {
        size := size + TX_INPUT_SIZE;
      }
    }
    assert tx.inputs[..|tx.inputs|] == tx.inputs;
    for i := 0 to |tx.outputs|
      invariant size == header + InputsSize(tx.inputs) + OutputsSize(tx.outputs[..i])
    {
      assert tx.outputs[..i + 1][..i] == tx.outputs[..i];
      size := size + 8 + VarIntSize(|tx.outputs[i].script|) + |tx.outputs[i].script|;
    }
    assert tx.outputs[..|tx.outputs|] == tx.outputs;
    if witSize > 0 {
      witSize := witSize + 2 + |tx.inputs|;
    }
  }

  /** `BRTransactionSize`. */
  method TransactionSize(tx: Tx) returns (r: nat)
    ensures r == Size(tx)
  {
    var size, witSize := MeasureParts(tx);
    r := size + witSize;
  }

  /** `BRTransactionVSize`. */
  method TransactionVSize(tx: Tx) returns (r: nat)
    ensures r == VSize(tx)
  {
    var size, witSize := MeasureParts(tx);
    r := (size * 4 + witSize + 3) / 4;
  }
}

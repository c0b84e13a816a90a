/** The serialised form of transactions, BIP 144, as bitcoin/BRTransaction.c writes and reads it. */
module TransactionCodec {
  import opened Wrappers
  import opened Bytes
  import opened Transactions
  import opened CompactSize

  // ----- witnesses

  /** A missing witness has length zero. */
  function WitnessOf(i: TxInput): seq<Byte> {
    if i.wit.Some? then i.wit.value else []
  }

  /** The length of the first item of a witness with its length prefix. */
  function ItemLength(wit: seq<Byte>): (n: nat)
    ensures n > 0
  {
    VarIntAt(wit).0 + VarIntAt(wit).1
  }

  /** The number of items found by walking over a witness. */
  function ItemCount(wit: seq<Byte>): nat {
    if wit == [] then 0
    else if ItemLength(wit) >= |wit| then 1
    else 1 + ItemCount(wit[ItemLength(wit)..])
  }

  /** The walk ends exactly where the witness does. */
  predicate IsWellFormed(wit: seq<Byte>) {
    wit == [] || (ItemLength(wit) <= |wit| && IsWellFormed(wit[ItemLength(wit)..]))
  }

  /** The bytes taken up by `count` items. */
  function ItemsLength(buf: seq<Byte>, count: nat): nat
    decreases count
  {
    if count == 0 then 0
    else
      var n := ItemLength(buf);
      n + ItemsLength(if n <= |buf| then buf[n..] else [], count - 1)
  }

  // ----- serialised form

  /** What stands in the script position of an input: its signature, or else the script it spends. */
  function ScriptSlot(i: TxInput): seq<Byte> {
    if i.signature.Some? then i.signature.value else if i.script.Some? then i.script.value else []
  }

  /** The amount is written for inputs not signed yet, if it is not zero. */
  function AmountBytes(i: TxInput): seq<Byte> {
    if i.signature.Some? || i.amount == 0 then [] else ToLE(i.amount, 8)
  }

  function InputBytes(i: TxInput): seq<Byte> {
    ToLE(i.txHash, 32) + (ToLE(i.index, 4) + (VarIntBytes(|ScriptSlot(i)|) + (ScriptSlot(i) + (AmountBytes(i) + ToLE(i.sequence, 4)))))
  }

  function OutputBytes(o: TxOutput): seq<Byte> {
    ToLE(o.amount, 8) + (VarIntBytes(|o.script|) + o.script)
  }

  function WitnessBytes(i: TxInput): seq<Byte> {
    VarIntBytes(ItemCount(WitnessOf(i))) + WitnessOf(i)
  }

  function InputsBytes(s: seq<TxInput>): seq<Byte> {
    if s == [] then [] else InputBytes(s[0]) + InputsBytes(s[1..])
  }

  function OutputsBytes(s: seq<TxOutput>): seq<Byte> {
    if s == [] then [] else OutputBytes(s[0]) + OutputsBytes(s[1..])
  }

  function WitnessesBytes(s: seq<TxInput>): seq<Byte> {
    if s == [] then [] else WitnessBytes(s[0]) + WitnessesBytes(s[1..])
  }

  predicate HasWitness(tx: Tx) {
    exists i :: 0 <= i < |tx.inputs| && |WitnessOf(tx.inputs[i])| > 0
  }

  const MARKER_AND_FLAG: seq<Byte> := [0, 1]

  /** Inputs and outputs with their counts. */
  function BodyBytes(tx: Tx): seq<Byte> {
    VarIntBytes(|tx.inputs|) + (InputsBytes(tx.inputs) + (VarIntBytes(|tx.outputs|) + OutputsBytes(tx.outputs)))
  }

  function TxBytes(tx: Tx): seq<Byte> {
    ToLE(tx.version, 4)
    + ((if HasWitness(tx) then MARKER_AND_FLAG else [])
    + (BodyBytes(tx)
    + ((if HasWitness(tx) then WitnessesBytes(tx.inputs) else [])
    + ToLE(tx.lockTime, 4))))
  }

  // ----- writing

  /** The walk over a witness that counts its items. */
  method CountItems(wit: seq<Byte>) returns (count: nat)
    ensures count == ItemCount(wit)
  {
    hide VarIntAt;
    var woff := 0;
    count := 0;
    while woff < |wit|
      invariant woff <= |wit| ==> count + ItemCount(wit[woff..]) == ItemCount(wit)
      invariant woff > |wit| ==> count == ItemCount(wit)
      decreases |wit| - woff
    {
      assert wit[woff..] != [];
      assert woff + ItemLength(wit[woff..]) < |wit| ==> wit[woff..][ItemLength(wit[woff..])..] == wit[woff + ItemLength(wit[woff..])..];
      var (r, len) := VarIntAt(wit[woff..]);
      woff := woff + r;
      woff := woff + len;
      count := count + 1;
    }
  }

  /** The bytes of an input with `slot` in the script position, and the amount unless it is zero. */
  function InputWith(i: TxInput, slot: seq<Byte>, amount: nat): seq<Byte> {
    ToLE(i.txHash, 32) + (ToLE(i.index, 4) + (VarIntBytes(|slot|) + (slot + ((if amount != 0 then ToLE(amount, 8) else []) + ToLE(i.sequence, 4)))))
  }

  /** In a serialised transaction inputs carry what `InputBytes` says. */
  lemma InputInPlace(i: TxInput)
    ensures InputWith(i, ScriptSlot(i), if i.signature.Some? then 0 else i.amount) == InputBytes(i)
  {
    hide ToLE, VarIntBytes;
  }

  /** `_BRTxInputData`, on an input whose script position and amount the caller may have emptied. */
  method InputData(i: TxInput, slot: seq<Byte>, amount: nat) returns (data: seq<Byte>)
    ensures data == InputWith(i, slot, amount)
  {
    hide ToLE, VarIntBytes;
    data := ToLE(i.txHash, 32);
    data := data + ToLE(i.index, 4);
    data := data + VarIntBytes(|slot|);
    data := data + slot;
    if amount != 0 {
      data := data + ToLE(amount, 8);
    }
    data := data + ToLE(i.sequence, 4);
    Regroup6(ToLE(i.txHash, 32), ToLE(i.index, 4), VarIntBytes(|slot|), slot, if amount != 0 then ToLE(amount, 8) else [],
             ToLE(i.sequence, 4));
  }

  lemma Regroup6(a: seq<Byte>, b: seq<Byte>, c: seq<Byte>, d: seq<Byte>, e: seq<Byte>, f: seq<Byte>)
    ensures a + b + c + d + e + f == a + (b + (c + (d + (e + f))))
    ensures a + b + c + d + [] + f == a + b + c + d + f
  {
  }

  /** `_BRTransactionOutputData`: the output at an index, or all (for an index of SIZE_MAX, here `None`). */
  method OutputData(tx: Tx, index: Option<nat>) returns (data: seq<Byte>)
    ensures data == if index.None? then OutputsBytes(tx.outputs)
                    else if index.value < |tx.outputs| then OutputBytes(tx.outputs[index.value])
                    else []
  {
    hide OutputBytes, OutputsBytes;
    data := [];
    NoOutputs();
    var first := if index.Some? then index.value else 0;
    var i := first;
    while i < |tx.outputs| && (index.None? || index.value == i)
      invariant i >= first && (i <= |tx.outputs| || i == first)
      invariant i == first ==> data == []
      invariant index.None? ==> data == OutputsBytes(tx.outputs[..i])
      invariant index.Some? && i > first ==> i == first + 1 && data == OutputBytes(tx.outputs[first])
      decreases |tx.outputs| - i
    {
      if index.None? {
        OutputsAppend(tx.outputs[..i], tx.outputs[i]);
        assert tx.outputs[..i + 1] == tx.outputs[..i] + [tx.outputs[i]];
      }
      OutputUnfold(data, tx.outputs[i]);
      assert [] + OutputBytes(tx.outputs[i]) == OutputBytes(tx.outputs[i]);
      data := data + ToLE(tx.outputs[i].amount, 8);
      data := data + VarIntBytes(|tx.outputs[i].script|);
      data := data + tx.outputs[i].script;
      i := i + 1;
    }
    assert tx.outputs[..|tx.outputs|] == tx.outputs;
  }

  lemma NoOutputs()
    ensures OutputsBytes([]) == []
  {
  }

  lemma OutputUnfold(data: seq<Byte>, o: TxOutput)
    ensures data + OutputBytes(o) == data + ToLE(o.amount, 8) + VarIntBytes(|o.script|) + o.script
  {
  }

  lemma {:induction false} OutputsAppend(s: seq<TxOutput>, o: TxOutput)
    ensures OutputsBytes(s + [o]) == OutputsBytes(s) + OutputBytes(o)
  {
    hide OutputBytes;
    if s == [] {
      assert ([] + [o])[1..] == [];
    } else {
      OutputsAppend(s[1..], o);
      assert (s + [o])[1..] == s[1..] + [o];
    }
  }

  lemma {:induction false} InputsAppend(s: seq<TxInput>, i: TxInput)
    ensures InputsBytes(s + [i]) == InputsBytes(s) + InputBytes(i)
    ensures WitnessesBytes(s + [i]) == WitnessesBytes(s) + WitnessBytes(i)
  {
    hide InputBytes, WitnessBytes, InputsBytes, WitnessesBytes;
    if s == [] {
      OneInput(i);
      assert [] + [i] == [i];
    } else {
      InputsAppend(s[1..], i);
      FirstInput(s);
      FirstInput(s + [i]);
      assert (s + [i])[1..] == s[1..] + [i];
    }
  }

  lemma FirstInput(s: seq<TxInput>)
    requires s != []
    ensures InputsBytes(s) == InputBytes(s[0]) + InputsBytes(s[1..])
    ensures WitnessesBytes(s) == WitnessBytes(s[0]) + WitnessesBytes(s[1..])
  {
  }

  lemma OneInput(i: TxInput)
    ensures InputsBytes([i]) == InputBytes(i) && WitnessesBytes([i]) == WitnessBytes(i)
    ensures InputsBytes([]) == [] && WitnessesBytes([]) == []
  {
    hide InputBytes, WitnessBytes;
    assert [i][1..] == [];
  }

  /** `BRTransactionSerialize`: `_BRTransactionData` for the whole signed transaction. */
  method Serialize(tx: Tx) returns (data: seq<Byte>)
    ensures data == TxBytes(tx)
  {
    hide InputBytes, InputsBytes, WitnessBytes, WitnessesBytes, OutputsBytes, ToLE, VarIntBytes, ItemCount;
    var witnessFlag := false;
    var i := 0;
    while !witnessFlag && i < |tx.inputs|
      invariant i <= |tx.inputs|
      invariant witnessFlag ==> HasWitness(tx)
      invariant !witnessFlag ==> forall k :: 0 <= k < i ==> |WitnessOf(tx.inputs[k])| == 0
      decreases |tx.inputs| - i
    {
      if tx.inputs[i].wit.Some? && |tx.inputs[i].wit.value| > 0 {
        assert |WitnessOf(tx.inputs[i])| > 0;
        witnessFlag := true;
      }
      i := i + 1;
    }
    assert witnessFlag == HasWitness(tx);
    data := ToLE(tx.version, 4);
    if witnessFlag {
      data := data + [0, 1];
    }
    ghost var head := data;
    var inputs := AllInputData(tx);
    data := data + VarIntBytes(|tx.inputs|);
    data := data + inputs;
    data := data + VarIntBytes(|tx.outputs|);
    var outputs := OutputData(tx, None);
    data := data + outputs;
    assert data == head + BodyBytes(tx);
    if witnessFlag {
      var witnesses := AllWitnessData(tx);
      data := data + witnesses;
    }
    data := data + ToLE(tx.lockTime, 4);
    Joined(tx, data);
  }

  lemma Joined(tx: Tx, data: seq<Byte>)
    requires data == if HasWitness(tx)
             then ToLE(tx.version, 4) + [0, 1] + BodyBytes(tx) + WitnessesBytes(tx.inputs) + ToLE(tx.lockTime, 4)
             else ToLE(tx.version, 4) + BodyBytes(tx) + ToLE(tx.lockTime, 4)
    ensures data == TxBytes(tx)
  {
    hide HasWitness, BodyBytes, WitnessesBytes, ToLE;
  }

  /** The loop over the inputs. */
  method AllInputData(tx: Tx) returns (data: seq<Byte>)
    ensures data == InputsBytes(tx.inputs)
  {
    hide InputBytes, InputsBytes, WitnessesBytes;
    NoInputs();
    data := [];
    for i := 0 to |tx.inputs|
      invariant data == InputsBytes(tx.inputs[..i])
    {
      InputsAppend(tx.inputs[..i], tx.inputs[i]);
      assert tx.inputs[..i + 1] == tx.inputs[..i] + [tx.inputs[i]];
      var input := tx.inputs[i];
      var slot, amount := [], 0;
      if input.signature.Some? {
        slot := input.signature.value;
      } else {
        if input.script.Some? {
          slot := input.script.value;
        }
        amount := input.amount;
      }
      InputInPlace(input);
      var bytes := InputData(input, slot, amount);
      data := data + bytes;
    }
    assert tx.inputs[..|tx.inputs|] == tx.inputs;
  }

  lemma NoInputs()
    ensures InputsBytes([]) == [] && WitnessesBytes([]) == []
  {
  }

  /** The loop over the witnesses. */
  method AllWitnessData(tx: Tx) returns (data: seq<Byte>)
    ensures data == WitnessesBytes(tx.inputs)
  {
    hide InputBytes, InputsBytes, WitnessBytes, WitnessesBytes, ItemCount, VarIntBytes;
    NoInputs();
    data := [];
    for i := 0 to |tx.inputs|
      invariant data == WitnessesBytes(tx.inputs[..i])
    {
      InputsAppend(tx.inputs[..i], tx.inputs[i]);
      assert tx.inputs[..i + 1] == tx.inputs[..i] + [tx.inputs[i]];
      var wit := if tx.inputs[i].wit.Some? then tx.inputs[i].wit.value else [];
      var count := CountItems(wit);
      WitnessUnfold(data, tx.inputs[i]);
      data := data + VarIntBytes(count);
      data := data + wit;
    }
    assert tx.inputs[..|tx.inputs|] == tx.inputs;
  }

  lemma WitnessUnfold(data: seq<Byte>, i: TxInput)
    ensures data + WitnessBytes(i) == data + VarIntBytes(ItemCount(WitnessOf(i))) + WitnessOf(i)
  {
  }
}

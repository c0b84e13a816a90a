/** Parsing a serialised transaction gives it back; its identifier and its size. */
module TransactionTheorems {
  import opened Wrappers
  import opened Bytes
  import opened Transactions
  import opened CompactSize
  import opened TransactionCodec
  import opened TransactionParser

  // ----- what can be serialised

  predicate Fits(x: nat, n: nat) { x < Pow256(n) }

  /** A length a 64-bit integer can hold. */
  predicate Countable(n: nat) { n < 0x1_0000_0000_0000_0000 }

  /** A signed input whose signature cannot be taken for a script, or an unsigned one whose script is
      a known scriptPubKey and whose amount is not zero, with a witness that is made of items. */
  predicate IsEncodable(isKey: IsScriptPubKey, i: TxInput) {
    && Fits(i.txHash, 32) && Fits(i.index, 4) && Fits(i.sequence, 4)
    && Countable(|ScriptSlot(i)|) && Countable(ItemCount(WitnessOf(i))) && IsWellFormed(WitnessOf(i))
    && if i.signature.Some? then !isKey(i.signature.value)
       else i.script.Some? && isKey(i.script.value) && i.amount != 0 && Fits(i.amount, 8)
  }

  predicate IsEncodableTx(isKey: IsScriptPubKey, tx: Tx) {
    && tx.inputs != [] && Fits(tx.version, 4) && Fits(tx.lockTime, 4)
    && Countable(|tx.inputs|) && Countable(|tx.outputs|)
    && (forall k :: 0 <= k < |tx.inputs| ==> IsEncodable(isKey, tx.inputs[k]))
    && (forall k :: 0 <= k < |tx.outputs| ==> Fits(tx.outputs[k].amount, 8) && Countable(|tx.outputs[k].script|))
  }

  /** An input as it comes back: what is not serialised is lost, and a missing witness comes back
      as an empty one. */
  function Delivered(i: TxInput, wit: Option<seq<Byte>>): TxInput {
    if i.signature.Some? then TxInput(i.txHash, i.index, 0, None, i.signature, wit, i.sequence)
    else TxInput(i.txHash, i.index, i.amount, i.script, None, wit, i.sequence)
  }

  function DeliveredAll(s: seq<TxInput>, flag: bool): seq<TxInput> {
    seq(|s|, k requires 0 <= k < |s| => Delivered(s[k], if flag then None else Some([])))
  }

  function DeliveredWithWitness(s: seq<TxInput>): seq<TxInput> {
    seq(|s|, k requires 0 <= k < |s| => Delivered(s[k], Some(WitnessOf(s[k]))))
  }

  // ----- pieces

  lemma LERoundTrip(x: nat, n: nat, rest: seq<Byte>)
    requires Fits(x, n)
    ensures ReadLE(ToLE(x, n) + rest, n) == Some((x, rest))
  {
    hide FromLE, ToLE, Pow256;
    assert (ToLE(x, n) + rest)[..n] == ToLE(x, n) && (ToLE(x, n) + rest)[n..] == rest;
    FromToLE(x, n);
  }

  lemma VarIntReads(i: nat, rest: seq<Byte>)
    requires Countable(i)
    ensures ReadVarInt(VarIntBytes(i) + rest) == Some((i, rest))
  {
    hide VarIntAt, VarIntBytes;
    VarIntRoundTrip(i, rest);
    assert (VarIntBytes(i) + rest)[VarIntSize(i)..] == rest;
  }

  lemma StringReads(s: seq<Byte>, rest: seq<Byte>)
    requires Countable(|s|)
    ensures ReadString(VarIntBytes(|s|) + (s + rest)) == Some((s, rest))
  {
    hide ReadVarInt, VarIntBytes;
    VarIntReads(|s|, s + rest);
    assert (s + rest)[..|s|] == s && (s + rest)[|s|..] == rest;
  }

  lemma SlotReads(isKey: IsScriptPubKey, i: TxInput, rest: seq<Byte>)
    requires IsEncodable(isKey, i)
    ensures ReadSlot(isKey, VarIntBytes(|ScriptSlot(i)|) + (ScriptSlot(i) + (AmountBytes(i) + rest)))
         == Some((if i.signature.Some? then Signature(i.signature.value) else Unsigned(i.script.value, i.amount), rest))
  {
    hide ReadString, ReadLE, VarIntBytes, ToLE, Pow256;
    StringReads(ScriptSlot(i), AmountBytes(i) + rest);
    if i.signature.Some? {
      assert AmountBytes(i) + rest == rest;
    } else {
      LERoundTrip(i.amount, 8, rest);
    }
  }

  lemma InputReads(isKey: IsScriptPubKey, i: TxInput, flag: bool, rest: seq<Byte>)
    requires IsEncodable(isKey, i)
    ensures ReadInput(isKey, flag, InputBytes(i) + rest) == Some((Delivered(i, if flag then None else Some([])), rest))
  {
    hide ReadSlot, ReadLE, VarIntBytes, ToLE, Fits;
    var b4 := ToLE(i.sequence, 4) + rest;
    var b3 := VarIntBytes(|ScriptSlot(i)|) + (ScriptSlot(i) + (AmountBytes(i) + b4));
    var b2 := ToLE(i.index, 4) + b3;
    InputRegroup(i, rest);
    LERoundTrip(i.txHash, 32, b2);
    LERoundTrip(i.index, 4, b3);
    SlotReads(isKey, i, b4);
    LERoundTrip(i.sequence, 4, rest);
  }

  /** A signed input reads back if and only if its signature is not itself a valid scriptPubKey. */
  lemma SignedInputReads(isKey: IsScriptPubKey, i: TxInput, flag: bool, rest: seq<Byte>)
    requires i.signature.Some? && IsWellFormed(WitnessOf(i)) && Countable(ItemCount(WitnessOf(i)))
    requires Fits(i.txHash, 32) && Fits(i.index, 4) && Fits(i.sequence, 4) && Countable(|i.signature.value|)
    ensures ReadInput(isKey, flag, InputBytes(i) + rest) == Some((Delivered(i, if flag then None else Some([])), rest))
       <==> !isKey(i.signature.value)
  {
    if isKey(i.signature.value) {
      hide ReadLE, ReadString, VarIntBytes, ToLE, Fits, IsWellFormed, ItemCount;
      var b4 := ToLE(i.sequence, 4) + rest;
      var b3 := VarIntBytes(|ScriptSlot(i)|) + (ScriptSlot(i) + (AmountBytes(i) + b4));
      InputRegroup(i, rest);
      LERoundTrip(i.txHash, 32, ToLE(i.index, 4) + b3);
      LERoundTrip(i.index, 4, b3);
      StringReads(ScriptSlot(i), AmountBytes(i) + b4);
    } else {
      InputReads(isKey, i, flag, rest);
    }
  }

  lemma InputRegroup(i: TxInput, rest: seq<Byte>)
    ensures InputBytes(i) + rest
         == ToLE(i.txHash, 32) + (ToLE(i.index, 4) + (VarIntBytes(|ScriptSlot(i)|)
            + (ScriptSlot(i) + (AmountBytes(i) + (ToLE(i.sequence, 4) + rest)))))
  {
    hide VarIntBytes, ToLE, ScriptSlot, AmountBytes;
    Regroup7(ToLE(i.txHash, 32), ToLE(i.index, 4), VarIntBytes(|ScriptSlot(i)|), ScriptSlot(i), AmountBytes(i),
             ToLE(i.sequence, 4), rest);
  }

  lemma Regroup7(a: seq<Byte>, b: seq<Byte>, c: seq<Byte>, d: seq<Byte>, e: seq<Byte>, f: seq<Byte>, g: seq<Byte>)
    ensures (a + (b + (c + (d + (e + f))))) + g == a + (b + (c + (d + (e + (f + g)))))
  {
  }

  lemma OutputReads(o: TxOutput, rest: seq<Byte>)
    requires Fits(o.amount, 8) && Countable(|o.script|)
    ensures ReadOutput(OutputBytes(o) + rest) == Some((o, rest))
  {
    hide ReadLE, ReadString, VarIntBytes, ToLE, Fits;
    var b1 := VarIntBytes(|o.script|) + (o.script + rest);
    assert OutputBytes(o) + rest == ToLE(o.amount, 8) + b1;
    LERoundTrip(o.amount, 8, b1);
    StringReads(o.script, rest);
  }

  /** The walk over a well-formed witness does not depend on what follows it. */
  lemma {:induction false} ItemsReads(wit: seq<Byte>, rest: seq<Byte>)
    requires IsWellFormed(wit)
    ensures ItemsLength(wit + rest, ItemCount(wit)) == |wit|
    decreases |wit|
  {
    if wit != [] {
      hide VarIntAt;
      VarIntLocal(wit, rest);
      var n := ItemLength(wit);
      assert ItemLength(wit + rest) == n;
      assert (wit + rest)[n..] == wit[n..] + rest;
      ItemsReads(wit[n..], rest);
      LastItem(wit);
    }
  }

  lemma LastItem(wit: seq<Byte>)
    requires wit != [] && IsWellFormed(wit)
    ensures ItemCount(wit) == 1 + ItemCount(wit[ItemLength(wit)..])
  {
  }

  lemma WitnessReads(i: TxInput, rest: seq<Byte>)
    requires IsWellFormed(WitnessOf(i)) && Countable(ItemCount(WitnessOf(i)))
    ensures ReadWitness(WitnessBytes(i) + rest) == Some((WitnessOf(i), rest))
  {
    hide ReadVarInt, VarIntBytes, ItemsLength, ItemCount, IsWellFormed;
    var wit := WitnessOf(i);
    assert WitnessBytes(i) + rest == VarIntBytes(ItemCount(wit)) + (wit + rest);
    VarIntReads(ItemCount(wit), wit + rest);
    ItemsReads(wit, rest);
    assert (wit + rest)[..|wit|] == wit && (wit + rest)[|wit|..] == rest;
  }

  // ----- lists

  lemma {:induction false} InputsRead(isKey: IsScriptPubKey, s: seq<TxInput>, flag: bool, rest: seq<Byte>)
    requires forall k :: 0 <= k < |s| ==> IsEncodable(isKey, s[k])
    ensures ReadInputs(isKey, flag, InputsBytes(s) + rest, |s|) == Some((DeliveredAll(s, flag), rest))
  {
    hide ReadInput, InputBytes, IsEncodable, Delivered;
    if s == [] {
      assert InputsBytes(s) + rest == rest;
    } else {
      var more := InputsBytes(s[1..]) + rest;
      assert InputsBytes(s) + rest == InputBytes(s[0]) + more;
      InputReads(isKey, s[0], flag, more);
      InputsRead(isKey, s[1..], flag, rest);
      assert DeliveredAll(s, flag) == [DeliveredAll(s, flag)[0]] + DeliveredAll(s[1..], flag);
    }
  }

  lemma {:induction false} OutputsRead(s: seq<TxOutput>, rest: seq<Byte>)
    requires forall k :: 0 <= k < |s| ==> Fits(s[k].amount, 8) && Countable(|s[k].script|)
    ensures ReadOutputs(OutputsBytes(s) + rest, |s|) == Some((s, rest))
  {
    hide ReadOutput, OutputBytes, Fits;
    if s == [] {
      assert OutputsBytes(s) + rest == rest;
    } else {
      var more := OutputsBytes(s[1..]) + rest;
      assert OutputsBytes(s) + rest == OutputBytes(s[0]) + more;
      OutputReads(s[0], more);
      OutputsRead(s[1..], rest);
      assert s == [s[0]] + s[1..];
    }
  }

  lemma {:induction false} WitnessesRead(isKey: IsScriptPubKey, s: seq<TxInput>, rest: seq<Byte>)
    requires forall k :: 0 <= k < |s| ==> IsEncodable(isKey, s[k])
    ensures ReadWitnesses(WitnessesBytes(s) + rest, DeliveredAll(s, true)) == Some((DeliveredWithWitness(s), rest))
  {
    hide ReadWitness, WitnessBytes, IsEncodable, Delivered, WitnessOf;
    if s == [] {
      assert WitnessesBytes(s) + rest == rest;
      assert DeliveredAll(s, true) == [] && DeliveredWithWitness(s) == [];
    } else {
      var more := WitnessesBytes(s[1..]) + rest;
      assert WitnessesBytes(s) + rest == WitnessBytes(s[0]) + more;
      EncodableWitness(isKey, s[0], more);
      WitnessesRead(isKey, s[1..], rest);
      assert DeliveredAll(s, true)[1..] == DeliveredAll(s[1..], true);
      assert DeliveredWithWitness(s) == [DeliveredWithWitness(s)[0]] + DeliveredWithWitness(s[1..]);
    }
  }

  lemma EncodableWitness(isKey: IsScriptPubKey, i: TxInput, rest: seq<Byte>)
    requires IsEncodable(isKey, i)
    ensures ReadWitness(WitnessBytes(i) + rest) == Some((WitnessOf(i), rest))
    ensures Delivered(i, None).(wit := Some(WitnessOf(i))) == Delivered(i, Some(WitnessOf(i)))
  {
    WitnessReads(i, rest);
  }

  lemma BodyReads(isKey: IsScriptPubKey, tx: Tx, flag: bool, rest: seq<Byte>)
    requires IsEncodableTx(isKey, tx)
    ensures ReadVarInt(BodyBytes(tx) + rest).Some?
    ensures var (n, b) := ReadVarInt(BodyBytes(tx) + rest).value;
            n == |tx.inputs| && ReadBody(isKey, flag, n, b) == Some(((DeliveredAll(tx.inputs, flag), tx.outputs), rest))
  {
    hide ReadVarInt, VarIntBytes, InputsBytes, OutputsBytes, ReadInputs, ReadOutputs, IsEncodable, Fits;
    var b2 := OutputsBytes(tx.outputs) + rest;
    var b1 := VarIntBytes(|tx.outputs|) + b2;
    var b0 := InputsBytes(tx.inputs) + b1;
    Regroup4(VarIntBytes(|tx.inputs|), InputsBytes(tx.inputs), VarIntBytes(|tx.outputs|), OutputsBytes(tx.outputs), rest);
    VarIntReads(|tx.inputs|, b0);
    InputsRead(isKey, tx.inputs, flag, b1);
    VarIntReads(|tx.outputs|, b2);
    OutputsRead(tx.outputs, rest);
  }

  lemma Regroup4(a: seq<Byte>, b: seq<Byte>, c: seq<Byte>, d: seq<Byte>, e: seq<Byte>)
    ensures (a + (b + (c + d))) + e == a + (b + (c + (d + e)))
  {
  }

  lemma HeaderReads(isKey: IsScriptPubKey, tx: Tx, rest: seq<Byte>)
    requires IsEncodableTx(isKey, tx)
    ensures var flag := HasWitness(tx);
            var buf := (if flag then MARKER_AND_FLAG else []) + (BodyBytes(tx) + rest);
            && ReadHeader(buf).Some?
            && ReadHeader(buf).value.0 == (|tx.inputs|, flag)
            && ReadBody(isKey, flag, |tx.inputs|, ReadHeader(buf).value.1) == Some(((DeliveredAll(tx.inputs, flag), tx.outputs), rest))
  {
    hide ReadVarInt, BodyBytes, HasWitness, IsEncodable, Fits, ReadBody;
    var body := BodyBytes(tx) + rest;
    BodyReads(isKey, tx, HasWitness(tx), rest);
    if HasWitness(tx) {
      MarkerReads(body);
    } else {
      assert [] + body == body;
    }
  }

  /** The marker reads as a count of zero. */
  lemma MarkerReads(body: seq<Byte>)
    ensures ReadVarInt(MARKER_AND_FLAG + body) == Some((0, [1] + body))
  {
    assert (MARKER_AND_FLAG + body)[1..] == [1] + body;
  }

  // ----- the round trip

  /** The transaction without witnesses, as it is serialised for its identifier. */
  function Stripped(tx: Tx): Tx {
    tx.(inputs := seq(|tx.inputs|, k requires 0 <= k < |tx.inputs| => tx.inputs[k].(wit := Some([]))))
  }

  predicate IsFullySigned(tx: Tx) {
    forall k :: 0 <= k < |tx.inputs| ==> tx.inputs[k].signature.Some?
  }

  lemma {:induction false} SameInputBytes(s: seq<TxInput>, t: seq<TxInput>)
    requires |s| == |t| && forall k :: 0 <= k < |s| ==> t[k] == s[k].(wit := Some([]))
    ensures InputsBytes(s) == InputsBytes(t)
  {
    if s != [] {
      SameInputBytes(s[1..], t[1..]);
    }
  }

  lemma StrippedBytes(tx: Tx)
    ensures TxBytes(Stripped(tx)) == ToLE(tx.version, 4) + BodyBytes(tx) + ToLE(tx.lockTime, 4)
  {
    hide ToLE;
    SameInputBytes(tx.inputs, Stripped(tx).inputs);
    hide InputsBytes, OutputsBytes, VarIntBytes;
    assert !HasWitness(Stripped(tx));
    assert BodyBytes(Stripped(tx)) == BodyBytes(tx);
  }

  /** The bytes hashed are the serialisation with witnesses emptied (section "Transaction ID" of
      BIP 141). */
  lemma PreimageIsStripped(tx: Tx, rest: seq<Byte>)
    requires Fits(tx.version, 4)
    ensures var flag := HasWitness(tx);
            var tail := (if flag then WitnessesBytes(tx.inputs) else []) + (ToLE(tx.lockTime, 4) + rest);
            Preimage(tx.version, TxBytes(tx) + rest, flag, |tail|, |rest|, tx.lockTime) == TxBytes(Stripped(tx))
  {
    hide HasWitness, BodyBytes, WitnessesBytes, ToLE, Fits;
    StrippedBytes(tx);
    var flag := HasWitness(tx);
    var wit := if flag then WitnessesBytes(tx.inputs) else [];
    var tail := wit + (ToLE(tx.lockTime, 4) + rest);
    var buf := TxBytes(tx) + rest;
    if flag {
      CutMiddle(ToLE(tx.version, 4), MARKER_AND_FLAG, BodyBytes(tx), tail, 6);
      assert buf == ToLE(tx.version, 4) + MARKER_AND_FLAG + BodyBytes(tx) + tail;
    } else {
      assert buf == (ToLE(tx.version, 4) + BodyBytes(tx) + ToLE(tx.lockTime, 4)) + rest;
    }
  }

  lemma CutMiddle(a: seq<Byte>, b: seq<Byte>, c: seq<Byte>, d: seq<Byte>, n: nat)
    requires n == |a| + |b|
    ensures var buf := a + b + c + d; n <= |buf| - |d| && buf[n..|buf| - |d|] == c
  {
  }

  /** The transaction as it comes back. */
  function DeliveredTx(digest: Digest, tx: Tx): Tx {
    Tx(if IsFullySigned(tx) then digest(TxBytes(Stripped(tx))) else 0,
       tx.version, DeliveredWithWitness(tx.inputs), tx.outputs, tx.lockTime, TX_UNCONFIRMED, 0)
  }

  /** Parsing what was serialised, whatever follows it, returns the version, previous outputs,
      signatures, sequences, outputs, witnesses and lock time, and for a fully signed transaction
      the hash of its serialisation without witnesses. */
  lemma RoundTrip(isKey: IsScriptPubKey, digest: Digest, tx: Tx, rest: seq<Byte>)
    requires IsEncodableTx(isKey, tx)
    ensures ParseTx(isKey, digest, TxBytes(tx) + rest) == Some(DeliveredTx(digest, tx))
  {
    hide ReadLE, ReadHeader, ReadBody, ReadWitnesses, HasWitness, BodyBytes, WitnessesBytes, ToLE, Fits, IsEncodable, Preimage, Stripped;
    var flag := HasWitness(tx);
    var wit := if flag then WitnessesBytes(tx.inputs) else [];
    var b4 := ToLE(tx.lockTime, 4) + rest;
    var b3 := wit + b4;
    var b1 := (if flag then MARKER_AND_FLAG else []) + (BodyBytes(tx) + b3);
    TxRegroup(tx, rest);
    LERoundTrip(tx.version, 4, b1);
    HeaderReads(isKey, tx, b3);
    if flag {
      WitnessesRead(isKey, tx.inputs, b4);
    } else {
      assert b3 == b4;
      NoWitnesses(tx);
    }
    LERoundTrip(tx.lockTime, 4, rest);
    PreimageIsStripped(tx, rest);
    SignedMeans(isKey, tx, flag);
  }

  lemma TxRegroup(tx: Tx, rest: seq<Byte>)
    ensures var tail := (if HasWitness(tx) then WitnessesBytes(tx.inputs) else []) + (ToLE(tx.lockTime, 4) + rest);
            var mark := if HasWitness(tx) then MARKER_AND_FLAG else [];
            TxBytes(tx) + rest == ToLE(tx.version, 4) + (mark + (BodyBytes(tx) + tail))
  {
    hide HasWitness, BodyBytes, WitnessesBytes, ToLE;
    var flag := HasWitness(tx);
    Regroup5(ToLE(tx.version, 4), if flag then MARKER_AND_FLAG else [], BodyBytes(tx),
             if flag then WitnessesBytes(tx.inputs) else [], ToLE(tx.lockTime, 4), rest);
  }

  lemma Regroup5(a: seq<Byte>, b: seq<Byte>, c: seq<Byte>, d: seq<Byte>, e: seq<Byte>, f: seq<Byte>)
    ensures (a + (b + (c + (d + e)))) + f == a + (b + (c + (d + (e + f))))
  {
  }

  lemma NoWitnesses(tx: Tx)
    requires !HasWitness(tx)
    ensures DeliveredAll(tx.inputs, false) == DeliveredWithWitness(tx.inputs)
  {
    forall k | 0 <= k < |tx.inputs| ensures WitnessOf(tx.inputs[k]) == [] {
      assert |WitnessOf(tx.inputs[k])| == 0;
    }
  }

  lemma SignedMeans(isKey: IsScriptPubKey, tx: Tx, flag: bool)
    requires IsEncodableTx(isKey, tx)
    ensures AllSigned(DeliveredAll(tx.inputs, flag)) <==> IsFullySigned(tx)
  {
    var s := DeliveredAll(tx.inputs, flag);
    forall k | 0 <= k < |s| ensures s[k].script.None? <==> tx.inputs[k].signature.Some? {
      assert IsEncodable(isKey, tx.inputs[k]);
    }
  }

  // ----- sizes

  /** Bytes by which the item counts exceed one byte each. */
  function ExtraCounts(s: seq<TxInput>): nat {
    if s == [] then 0 else VarIntSize(ItemCount(WitnessOf(s[0]))) - 1 + ExtraCounts(s[1..])
  }

  lemma {:induction false} InputsLength(s: seq<TxInput>)
    requires forall k :: 0 <= k < |s| ==> IsSignedInput(s[k])
    ensures |InputsBytes(s)| == InputsSize(s)
    ensures |WitnessesBytes(s)| == WitnessesSize(s) + |s| + ExtraCounts(s)
  {
    if s != [] {
      InputsLength(s[1..]);
      assert |InputBytes(s[0])| == InputSize(s[0]);
      SizesFromFront(s);
    }
  }

  lemma {:induction false} SizesFromFront(s: seq<TxInput>)
    requires s != []
    ensures InputsSize(s) == InputSize(s[0]) + InputsSize(s[1..])
    ensures WitnessesSize(s) == WitnessSize(s[0]) + WitnessesSize(s[1..])
  {
    if |s| > 1 {
      SizesFromFront(s[..|s| - 1]);
      assert s[..|s| - 1][1..] == s[1..][..|s| - 2];
    } else {
      assert s[..0] == [] && s[1..] == [];
    }
  }

  lemma {:induction false} OutputsLength(s: seq<TxOutput>)
    ensures |OutputsBytes(s)| == OutputsSize(s)
  {
    if s != [] {
      OutputsLength(s[1..]);
      OutputSizesFromFront(s);
    }
  }

  lemma {:induction false} OutputSizesFromFront(s: seq<TxOutput>)
    requires s != []
    ensures OutputsSize(s) == OutputSize(s[0]) + OutputsSize(s[1..])
  {
    if |s| > 1 {
      OutputSizesFromFront(s[..|s| - 1]);
      assert s[..|s| - 1][1..] == s[1..][..|s| - 2];
    } else {
      assert s[..0] == [] && s[1..] == [];
    }
  }

  lemma {:induction false} WitnessTotals(s: seq<TxInput>)
    requires forall k :: 0 <= k < |s| ==> IsSignedInput(s[k])
    ensures WitnessesSize(s) > 0 <==> exists k :: 0 <= k < |s| && |WitnessOf(s[k])| > 0
    ensures ExtraCounts(s) == 0 <==> forall k :: 0 <= k < |s| ==> ItemCount(WitnessOf(s[k])) < 0xfd
  {
    if s != [] {
      WitnessTotals(s[1..]);
      SizesFromFront(s);
      assert forall k :: 0 < k < |s| ==> s[k] == s[1..][k - 1];
    }
  }

  /** The size computed for a signed transaction is the length of its serialisation if and only if
      it has no witnesses, or no input has 253 or more witness items; otherwise it falls short. */
  lemma SizeIsLength(tx: Tx)
    requires IsSigned(tx)
    ensures Size(tx) <= |TxBytes(tx)|
    ensures Size(tx) == |TxBytes(tx)|
       <==> !HasWitness(tx) || forall k :: 0 <= k < |tx.inputs| ==> ItemCount(WitnessOf(tx.inputs[k])) < 0xfd
  {
    hide InputsBytes, OutputsBytes, WitnessesBytes, InputsSize, OutputsSize, WitnessesSize, ItemCount, ExtraCounts, ToLE;
    InputsLength(tx.inputs);
    OutputsLength(tx.outputs);
    WitnessTotals(tx.inputs);
  }
}

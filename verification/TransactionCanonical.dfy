/** Which buffers are the serialisation of what `BRTransactionParse` of bitcoin/BRTransaction.c reads from them. */
module TransactionCanonical {
  import opened Wrappers
  import opened Bytes
  import opened Transactions
  import opened CompactSize
  import opened TransactionCodec
  import opened TransactionParser
  import opened TransactionTheorems

  /** Reading goes from `buf` to `rest`, and what was read is written with no more bytes than were read; with as
      many only if they are the same. */
  predicate Covers(bytes: seq<Byte>, buf: seq<Byte>, rest: seq<Byte>) {
    && |bytes| + |rest| <= |buf| && rest == buf[|buf| - |rest|..]
    && (|bytes| + |rest| == |buf| ==> bytes + rest == buf)
  }

  lemma Joined(a: seq<Byte>, b: seq<Byte>, buf: seq<Byte>, mid: seq<Byte>, rest: seq<Byte>)
    requires Covers(a, buf, mid) && Covers(b, mid, rest)
    ensures Covers(a + b, buf, rest)
  {
    assert a + b + rest == a + (b + rest);
    assert mid[|mid| - |rest|..] == buf[|buf| - |mid|..][|mid| - |rest|..] == buf[|buf| - |rest|..];
  }

  lemma NothingCovers(buf: seq<Byte>)
    ensures Covers([], buf, buf)
  {
  }

  // ----- numbers and strings

  lemma LECovers(buf: seq<Byte>, n: nat)
    requires ReadLE(buf, n).Some?
    ensures Covers(ToLE(ReadLE(buf, n).value.0, n), buf, ReadLE(buf, n).value.1)
  {
    ToFromLE(buf[..n]);
  }

  lemma VarIntCovers(buf: seq<Byte>)
    requires ReadVarInt(buf).Some?
    ensures Covers(VarIntBytes(ReadVarInt(buf).value.0), buf, ReadVarInt(buf).value.1)
  {
    hide ToLE, FromLE;
    var (v, w) := VarIntAt(buf);
    if w > 1 {
      ToFromLE(buf[1..w]);
      assert buf == [buf[0]] + buf[1..w] + buf[w..];
    } else {
      assert buf == [buf[0]] + buf[1..];
    }
  }

  lemma StringCovers(buf: seq<Byte>)
    requires ReadString(buf).Some?
    ensures var (s, rest) := ReadString(buf).value; Covers(VarIntBytes(|s|) + s, buf, rest)
  {
    hide ReadVarInt, VarIntBytes;
    var (n, mid) := ReadVarInt(buf).value;
    VarIntCovers(buf);
    Joined(VarIntBytes(n), mid[..n], buf, mid, mid[n..]);
  }

  // ----- inputs and outputs

  function SlotBytes(slot: Slot): seq<Byte> {
    match slot
    case Unsigned(script, amount) => VarIntBytes(|script|) + script + (if amount == 0 then [] else ToLE(amount, 8))
    case Signature(bytes) => VarIntBytes(|bytes|) + bytes
  }

  lemma SlotCovers(isKey: IsScriptPubKey, buf: seq<Byte>)
    requires ReadSlot(isKey, buf).Some?
    ensures Covers(SlotBytes(ReadSlot(isKey, buf).value.0), buf, ReadSlot(isKey, buf).value.1)
  {
    hide ReadString, ReadLE, VarIntBytes, ToLE;
    StringCovers(buf);
    var (s, mid) := ReadString(buf).value;
    if isKey(s) {
      LECovers(mid, 8);
      var (amount, rest) := ReadLE(mid, 8).value;
      assert Covers(if amount == 0 then [] else ToLE(amount, 8), mid, rest) by { NothingCovers(mid); EightRead(mid); }
      Joined(VarIntBytes(|s|) + s, if amount == 0 then [] else ToLE(amount, 8), buf, mid, rest);
    }
  }

  lemma EightRead(buf: seq<Byte>)
    requires ReadLE(buf, 8).Some?
    ensures |ReadLE(buf, 8).value.1| + 8 == |buf|
  {
  }

  lemma InputCovers(isKey: IsScriptPubKey, flag: bool, buf: seq<Byte>)
    requires ReadInput(isKey, flag, buf).Some?
    ensures Covers(InputBytes(ReadInput(isKey, flag, buf).value.0), buf, ReadInput(isKey, flag, buf).value.1)
  {
    hide ReadLE, ReadSlot, ToLE, SlotBytes, VarIntBytes, Covers;
    var (txHash, b1) := ReadLE(buf, 32).value;
    var (index, b2) := ReadLE(b1, 4).value;
    var (slot, b3) := ReadSlot(isKey, b2).value;
    var (sequence, b4) := ReadLE(b3, 4).value;
    LECovers(buf, 32);
    LECovers(b1, 4);
    SlotCovers(isKey, b2);
    LECovers(b3, 4);
    Joined(SlotBytes(slot), ToLE(sequence, 4), b2, b3, b4);
    Joined(ToLE(index, 4), SlotBytes(slot) + ToLE(sequence, 4), b1, b2, b4);
    Joined(ToLE(txHash, 32), ToLE(index, 4) + (SlotBytes(slot) + ToLE(sequence, 4)), buf, b1, b4);
    SlotInPlace(txHash, index, slot, sequence, flag);
  }

  lemma SlotInPlace(txHash: Hash, index: nat, slot: Slot, sequence: nat, flag: bool)
    ensures InputBytes(MakeInput(txHash, index, slot, sequence, flag))
         == ToLE(txHash, 32) + (ToLE(index, 4) + (SlotBytes(slot) + ToLE(sequence, 4)))
  {
    hide ToLE, VarIntBytes;
    var i := MakeInput(txHash, index, slot, sequence, flag);
    assert VarIntBytes(|ScriptSlot(i)|) + (ScriptSlot(i) + (AmountBytes(i) + ToLE(sequence, 4))) == SlotBytes(slot) + ToLE(sequence, 4);
  }

  lemma OutputCovers(buf: seq<Byte>)
    requires ReadOutput(buf).Some?
    ensures Covers(OutputBytes(ReadOutput(buf).value.0), buf, ReadOutput(buf).value.1)
  {
    hide ReadLE, ReadString, ToLE, VarIntBytes, Covers;
    var (amount, b1) := ReadLE(buf, 8).value;
    var (script, b2) := ReadString(b1).value;
    LECovers(buf, 8);
    StringCovers(b1);
    Joined(ToLE(amount, 8), VarIntBytes(|script|) + script, buf, b1, b2);
  }

  lemma {:induction false} InputsCover(isKey: IsScriptPubKey, flag: bool, buf: seq<Byte>, n: nat)
    requires ReadInputs(isKey, flag, buf, n).Some?
    ensures var (s, rest) := ReadInputs(isKey, flag, buf, n).value;
            |s| == n && Covers(InputsBytes(s), buf, rest)
    decreases n
  {
    hide ReadInput, InputBytes, Covers;
    if n == 0 {
      NothingCovers(buf);
    } else {
      var (i, mid) := ReadInput(isKey, flag, buf).value;
      var (s, rest) := ReadInputs(isKey, flag, mid, n - 1).value;
      InputCovers(isKey, flag, buf);
      InputsCover(isKey, flag, mid, n - 1);
      Joined(InputBytes(i), InputsBytes(s), buf, mid, rest);
      assert ([i] + s)[1..] == s;
    }
  }

  lemma {:induction false} OutputsCover(buf: seq<Byte>, n: nat)
    requires ReadOutputs(buf, n).Some?
    ensures var (s, rest) := ReadOutputs(buf, n).value;
            |s| == n && Covers(OutputsBytes(s), buf, rest)
    decreases n
  {
    hide ReadOutput, OutputBytes, Covers;
    if n == 0 {
      NothingCovers(buf);
    } else {
      var (o, mid) := ReadOutput(buf).value;
      var (s, rest) := ReadOutputs(mid, n - 1).value;
      OutputCovers(buf);
      OutputsCover(mid, n - 1);
      Joined(OutputBytes(o), OutputsBytes(s), buf, mid, rest);
      assert ([o] + s)[1..] == s;
    }
  }

  // ----- witnesses

  /** What the walk over `count` items takes is a witness of that many items. */
  lemma {:induction false} MeasuredItems(buf: seq<Byte>, count: nat)
    requires ItemsLength(buf, count) <= |buf|
    ensures var wit := buf[..ItemsLength(buf, count)]; IsWellFormed(wit) && ItemCount(wit) == count
    decreases count
  {
    if count > 0 {
      var n, m := ItemLength(buf), ItemsLength(buf, count);
      OneMoreItem(buf, count);
      MeasuredItems(buf[n..], count - 1);
      hide ItemLength, ItemsLength, ItemCount, IsWellFormed;
      FirstItem(buf, m);
      FirstOfAll(buf[..m], buf[n..][..m - n], n);
    }
  }

  lemma OneMoreItem(buf: seq<Byte>, count: nat)
    requires count > 0 && ItemsLength(buf, count) <= |buf|
    ensures var n := ItemLength(buf);
            0 < n <= ItemsLength(buf, count) == n + ItemsLength(buf[n..], count - 1)
  {
    hide ItemLength;
  }

  lemma FirstOfAll(wit: seq<Byte>, rest: seq<Byte>, n: nat)
    requires n == ItemLength(wit) <= |wit| && wit[n..] == rest && IsWellFormed(rest)
    ensures IsWellFormed(wit) && ItemCount(wit) == 1 + ItemCount(rest)
  {
    hide ItemLength;
    LastItem(wit);
  }

  lemma FirstItem(buf: seq<Byte>, m: nat)
    requires ItemLength(buf) <= m <= |buf|
    ensures ItemLength(buf[..m]) == ItemLength(buf)
  {
    hide VarIntAt;
    VarIntPart(buf, m);
  }

  lemma VarIntPart(buf: seq<Byte>, m: nat)
    requires VarIntAt(buf).1 <= m <= |buf|
    ensures VarIntAt(buf[..m]) == VarIntAt(buf)
  {
    hide FromLE;
    var w := VarIntAt(buf).1;
    assert w > 1 ==> buf[..m][1..w] == buf[1..w];
  }

  lemma WitnessCovers(buf: seq<Byte>)
    requires ReadWitness(buf).Some?
    ensures var (wit, rest) := ReadWitness(buf).value; Covers(VarIntBytes(ItemCount(wit)) + wit, buf, rest)
  {
    hide ReadVarInt, VarIntBytes, ItemsLength, ItemCount;
    var (count, mid) := ReadVarInt(buf).value;
    var n := ItemsLength(mid, count);
    VarIntCovers(buf);
    MeasuredItems(mid, count);
    Joined(VarIntBytes(count), mid[..n], buf, mid, mid[n..]);
  }

  lemma {:induction false} WitnessesCover(buf: seq<Byte>, inputs: seq<TxInput>)
    requires ReadWitnesses(buf, inputs).Some?
    ensures var (s, rest) := ReadWitnesses(buf, inputs).value;
            && |s| == |inputs| && InputsBytes(s) == InputsBytes(inputs)
            && Covers(WitnessesBytes(s), buf, rest)
    decreases |inputs|
  {
    hide ReadWitness, VarIntBytes, Covers, ItemCount, ToLE;
    if inputs == [] {
      NothingCovers(buf);
    } else {
      var (wit, mid) := ReadWitness(buf).value;
      var (s, rest) := ReadWitnesses(mid, inputs[1..]).value;
      WitnessCovers(buf);
      WitnessesCover(mid, inputs[1..]);
      var i := inputs[0].(wit := Some(wit));
      Joined(WitnessBytes(i), WitnessesBytes(s), buf, mid, rest);
      assert ([i] + s)[1..] == s;
    }
  }

  // ----- transactions

  /** The header ends with a count that is not zero; before it stand a marker and a flag `f` if there are witnesses. */
  lemma HeaderCovers(buf: seq<Byte>) returns (f: Byte)
    requires ReadHeader(buf).Some?
    ensures var ((n, flag), rest) := ReadHeader(buf).value;
            && n > 0 && f != 0
            && Covers((if flag then [0, f] else []) + VarIntBytes(n), buf, rest)
  {
    hide ReadVarInt, VarIntBytes, Covers;
    f := 1;
    var (n, mid) := ReadVarInt(buf).value;
    VarIntCovers(buf);
    assert [] + VarIntBytes(n) == VarIntBytes(n);
    if n == 0 {
      f := mid[0];
      ZeroByte();
      VarIntCovers(mid[1..]);
      var (n', rest) := ReadVarInt(mid[1..]).value;
      FirstCovers(mid);
      Joined([0], [f], buf, mid, mid[1..]);
      assert [0] + [f] == [0, f];
      Joined([0, f], VarIntBytes(n'), buf, mid[1..], rest);
    }
  }

  lemma ZeroByte()
    ensures VarIntBytes(0) == [0]
  {
  }

  lemma FirstCovers(buf: seq<Byte>)
    requires buf != []
    ensures Covers([buf[0]], buf, buf[1..])
  {
  }

  /** The serialisation with another flag byte. */
  function Flagged(tx: Tx, flag: bool, f: Byte): seq<Byte> {
    ToLE(tx.version, 4) + (((if flag then [0, f] else []) + VarIntBytes(|tx.inputs|))
    + (InputsBytes(tx.inputs) + ((VarIntBytes(|tx.outputs|) + OutputsBytes(tx.outputs))
    + ((if flag then WitnessesBytes(tx.inputs) else []) + ToLE(tx.lockTime, 4)))))
  }

  lemma BodyCovers(isKey: IsScriptPubKey, flag: bool, n: nat, buf: seq<Byte>) returns (b1: seq<Byte>)
    requires ReadBody(isKey, flag, n, buf).Some?
    ensures var ((inputs, outputs), b3) := ReadBody(isKey, flag, n, buf).value;
            && |inputs| == n && Covers(InputsBytes(inputs), buf, b1)
            && Covers(VarIntBytes(|outputs|) + OutputsBytes(outputs), b1, b3)
  {
    hide ReadInputs, ReadOutputs, ReadVarInt, VarIntBytes, InputsBytes, OutputsBytes, Covers;
    var (inputs, b) := ReadInputs(isKey, flag, buf, n).value;
    b1 := b;
    var (m, b2) := ReadVarInt(b1).value;
    var (outputs, b3) := ReadOutputs(b2, m).value;
    InputsCover(isKey, flag, buf, n);
    VarIntCovers(b1);
    OutputsCover(b2, m);
    Joined(VarIntBytes(m), OutputsBytes(outputs), b1, b2, b3);
  }

  lemma ParseCovers(isKey: IsScriptPubKey, digest: Digest, buf: seq<Byte>) returns (flag: bool, f: Byte, rest: seq<Byte>)
    requires ParseTx(isKey, digest, buf).Some?
    ensures f != 0 && Covers(Flagged(ParseTx(isKey, digest, buf).value, flag, f), buf, rest)
    ensures !flag ==> !HasWitness(ParseTx(isKey, digest, buf).value)
    ensures |ParseTx(isKey, digest, buf).value.inputs| > 0
  {
    hide ReadLE, ReadHeader, ReadBody, ReadWitnesses, ToLE, VarIntBytes, InputsBytes, OutputsBytes, WitnessesBytes, Covers, AllSigned,
         Preimage, HasWitness;
    var (version, b1) := ReadLE(buf, 4).value;
    var ((n, flag0), b2) := ReadHeader(b1).value;
    flag := flag0;
    var ((inputs, outputs), b3) := ReadBody(isKey, flag, n, b2).value;
    var (inputs', b4) := (if flag then ReadWitnesses(b3, inputs) else Some((inputs, b3))).value;
    var (lockTime, b5) := ReadLE(b4, 4).value;
    rest := b5;
    LECovers(buf, 4);
    f := HeaderCovers(b1);
    var mid := BodyCovers(isKey, flag, n, b2);
    LECovers(b4, 4);
    var wit := if flag then WitnessesBytes(inputs') else [];
    if flag {
      WitnessesCover(b3, inputs);
    } else {
      NothingCovers(b3);
      NoneRead(isKey, b2, n, b3);
    }
    var head, out := (if flag then [0, f] else []) + VarIntBytes(n), VarIntBytes(|outputs|) + OutputsBytes(outputs);
    Joined(wit, ToLE(lockTime, 4), b3, b4, b5);
    Joined(out, wit + ToLE(lockTime, 4), mid, b3, b5);
    Joined(InputsBytes(inputs), out + (wit + ToLE(lockTime, 4)), b2, mid, b5);
    Joined(head, InputsBytes(inputs) + (out + (wit + ToLE(lockTime, 4))), b1, b2, b5);
    Joined(ToLE(version, 4), head + (InputsBytes(inputs) + (out + (wit + ToLE(lockTime, 4)))), buf, b1, b5);
  }

  lemma NoneRead(isKey: IsScriptPubKey, buf: seq<Byte>, n: nat, rest: seq<Byte>)
    ensures ReadBody(isKey, false, n, buf).Some? ==>
              forall tx: Tx :: tx.inputs == ReadBody(isKey, false, n, buf).value.0.0 ==> !HasWitness(tx)
  {
    if ReadBody(isKey, false, n, buf).Some? {
      NoneReadEach(isKey, buf, n);
    }
  }

  lemma {:induction false} NoneReadEach(isKey: IsScriptPubKey, buf: seq<Byte>, n: nat)
    requires ReadInputs(isKey, false, buf, n).Some?
    ensures var s := ReadInputs(isKey, false, buf, n).value.0; forall k :: 0 <= k < |s| ==> s[k].wit == Some([])
    decreases n
  {
    hide ReadInput;
    if n > 0 {
      NoneReadIn(isKey, buf);
      var (i, mid) := ReadInput(isKey, false, buf).value;
      NoneReadEach(isKey, mid, n - 1);
      var more := ReadInputs(isKey, false, mid, n - 1).value.0;
      assert ReadInputs(isKey, false, buf, n).value.0 == [i] + more;
    }
  }

  lemma NoneReadIn(isKey: IsScriptPubKey, buf: seq<Byte>)
    ensures ReadInput(isKey, false, buf).Some? ==> ReadInput(isKey, false, buf).value.0.wit == Some([])
  {
    hide ReadLE, ReadSlot;
  }

  lemma FlaggedLength(tx: Tx, flag: bool, f: Byte)
    requires !flag ==> !HasWitness(tx)
    ensures |TxBytes(tx)| <= |Flagged(tx, flag, f)|
    ensures |TxBytes(tx)| == |Flagged(tx, flag, f)| <==> flag == HasWitness(tx)
    ensures flag == HasWitness(tx) ==> (TxBytes(tx) == Flagged(tx, flag, f) <==> (flag ==> f == 1))
    ensures flag ==> |Flagged(tx, flag, f)| > 5 && Flagged(tx, flag, f)[5] == f
  {
    hide ToLE, VarIntBytes, InputsBytes, OutputsBytes, WitnessesBytes, HasWitness;
    var body := BodyBytes(tx);
    var mark, wit := if flag then [0, f] else [], if flag then WitnessesBytes(tx.inputs) else [];
    assert Flagged(tx, flag, f) == ToLE(tx.version, 4) + (mark + (body + (wit + ToLE(tx.lockTime, 4))));
    if flag {
      assert Flagged(tx, flag, f)[5] == mark[1];
    }
    if flag && HasWitness(tx) {
      assert TxBytes(tx)[5] == 1;
    }
  }

  /** A transaction read from a buffer has inputs, and its serialisation is no longer than the buffer. If it is as
      long, it is the buffer, except for the flag byte of a transaction with witnesses: any byte but zero is taken
      for the flag, and 1 is written. */
  lemma AcceptedIsSerialized(isKey: IsScriptPubKey, digest: Digest, buf: seq<Byte>)
    requires ParseTx(isKey, digest, buf).Some?
    ensures var tx := ParseTx(isKey, digest, buf).value;
            && tx.inputs != [] && |TxBytes(tx)| <= |buf|
            && (|TxBytes(tx)| == |buf| ==>
                  && (HasWitness(tx) ==> |buf| > 5 && buf[5] != 0)
                  && (TxBytes(tx) == buf <==> (HasWitness(tx) ==> buf[5] == 1)))
  {
    hide ParseTx, TxBytes, Flagged, HasWitness;
    var flag, f, rest := ParseCovers(isKey, digest, buf);
    FlaggedLength(ParseTx(isKey, digest, buf).value, flag, f);
    assert Flagged(ParseTx(isKey, digest, buf).value, flag, f) + [] == Flagged(ParseTx(isKey, digest, buf).value, flag, f);
  }
}

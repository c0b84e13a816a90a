/** Two transactions with the bytes that bitcoin/BRTransaction.c writes for them, the limits of CompactSize
    integers, and what a virtual size is. */
module TransactionVector {
  import opened Wrappers
  import opened Bytes
  import opened Transactions
  import opened CompactSize
  import opened TransactionCodec
  import opened TransactionTheorems
  import Division

  // ----- integers

  /** The byte at `k` of a little-endian integer is its `k`-th digit. */
  lemma {:induction false} DigitAt(x: nat, n: nat, k: nat)
    requires k < n
    ensures ToLE(x, n)[k] == x / Pow256(k) % 256
  {
    if k > 0 {
      DigitAt(x / 256, n - 1, k - 1);
      Division.DivideTwice(x, 256, Pow256(k - 1));
    }
  }

  /** The longest and shortest integers of each length. */
  lemma CompactSizeLimits()
    ensures VarIntBytes(0) == [0] && VarIntBytes(252) == [252]
    ensures VarIntBytes(253) == [253, 253, 0] && VarIntBytes(0xffff) == [253, 255, 255]
    ensures VarIntBytes(0x1_0000) == [254, 0, 0, 1, 0] && VarIntBytes(0xffff_ffff) == [254, 255, 255, 255, 255]
    ensures VarIntBytes(0x1_0000_0000) == [255, 0, 0, 0, 0, 1, 0, 0, 0]
  {
    ShortLimits();
    LongLimits();
    LongestLimit();
    hide VarIntBytes;
  }

  lemma ShortLimits()
    ensures VarIntBytes(0) == [0] && VarIntBytes(252) == [252]
    ensures VarIntBytes(253) == [253, 253, 0] && VarIntBytes(0xffff) == [253, 255, 255]
  {
    Pair(253);
    Pair(0xffff);
    hide ToLE;
  }

  lemma LongLimits()
    ensures VarIntBytes(0x1_0000) == [254, 0, 0, 1, 0] && VarIntBytes(0xffff_ffff) == [254, 255, 255, 255, 255]
  {
    Quads();
    hide ToLE;
  }

  lemma LongestLimit()
    ensures VarIntBytes(0x1_0000_0000) == [255, 0, 0, 0, 0, 1, 0, 0, 0]
  {
    FourGigabytes();
    hide ToLE;
  }

  lemma Pair(x: nat)
    ensures ToLE(x, 2) == [x % 256, x / 256 % 256]
  {
  }

  lemma Quads()
    ensures ToLE(0x1_0000, 4) == [0, 0, 1, 0] && ToLE(0xffff_ffff, 4) == [255, 255, 255, 255]
  {
  }

  lemma FourGigabytes()
    ensures ToLE(0x1_0000_0000, 8) == [0, 0, 0, 0, 1, 0, 0, 0]
  {
    assert ToLE(1, 4) == [1, 0, 0, 0];
    assert ToLE(0x100, 5) == [0] + ToLE(1, 4);
    assert ToLE(0x1_0000, 6) == [0] + ToLE(0x100, 5);
    assert ToLE(0x100_0000, 7) == [0] + ToLE(0x1_0000, 6);
    assert ToLE(0x1_0000_0000, 8) == [0] + ToLE(0x100_0000, 7);
  }

  // ----- a signed transaction with a witness, and an unsigned one

  /** A transaction hash is written as its 32 bytes. */
  function Signed(id: seq<Byte>): TxInput {
    TxInput(FromLE(id), 5, 0, None, Some([7, 8, 9]), Some([2, 10, 11, 1, 12]), 0xffff_fffd)
  }

  function Unsigned(id: seq<Byte>): TxInput {
    TxInput(FromLE(id), 5, 0x0102_0304_0506_0708, Some([0x6a, 0x01]), None, None, 0xffff_fffd)
  }

  const PAID: TxOutput := TxOutput(0x0102_0304_0506_0708, [0x51])

  /** Version, marker and flag, the input with its signature, the output, two witness items, and the lock time. */
  lemma SignedExample(tx: Tx, id: seq<Byte>)
    requires |id| == 32
    requires tx.version == 2 && tx.inputs == [Signed(id)] && tx.outputs == [PAID] && tx.lockTime == 0x1122_3344
    ensures TxBytes(tx)
         == [2, 0, 0, 0] + [0, 1]
            + ([1] + (id + [5, 0, 0, 0] + [3, 7, 8, 9] + [0xfd, 0xff, 0xff, 0xff])
               + [1] + ([8, 7, 6, 5, 4, 3, 2, 1] + [1, 0x51]))
            + [2, 2, 10, 11, 1, 12] + [0x44, 0x33, 0x22, 0x11]
  {
    SignedInput(id);
    PaidOutput();
    FourBytes();
    SignedWitness(tx, id);
    hide InputBytes, OutputBytes, WitnessBytes, ToLE, FromLE, HasWitness, TxBytes;
    InFull(tx, [2, 0, 0, 0], [0, 1], id + [5, 0, 0, 0] + [3, 7, 8, 9] + [0xfd, 0xff, 0xff, 0xff],
           [8, 7, 6, 5, 4, 3, 2, 1] + [1, 0x51], [2, 2, 10, 11, 1, 12], [0x44, 0x33, 0x22, 0x11]);
  }

  /** The script that is spent stands for the signature, and its amount follows it. */
  lemma UnsignedExample(tx: Tx, id: seq<Byte>)
    requires |id| == 32
    requires tx.version == 1 && tx.inputs == [Unsigned(id)] && tx.outputs == [PAID] && tx.lockTime == 0x1122_3344
    ensures TxBytes(tx)
         == [1, 0, 0, 0]
            + ([1] + (id + [5, 0, 0, 0] + [2, 0x6a, 0x01] + [8, 7, 6, 5, 4, 3, 2, 1] + [0xfd, 0xff, 0xff, 0xff])
               + [1] + ([8, 7, 6, 5, 4, 3, 2, 1] + [1, 0x51]))
            + [0x44, 0x33, 0x22, 0x11]
  {
    UnsignedInput(id);
    PaidOutput();
    FourBytes();
    assert WitnessOf(tx.inputs[0]) == [] && !HasWitness(tx);
    hide InputBytes, OutputBytes, WitnessBytes, ToLE, FromLE, HasWitness, TxBytes;
    var input := id + [5, 0, 0, 0] + [2, 0x6a, 0x01] + [8, 7, 6, 5, 4, 3, 2, 1] + [0xfd, 0xff, 0xff, 0xff];
    var output := [8, 7, 6, 5, 4, 3, 2, 1] + [1, 0x51];
    InFull(tx, [1, 0, 0, 0], [], input, output, [], [0x44, 0x33, 0x22, 0x11]);
    NoneBetween([1, 0, 0, 0], [1] + input + [1] + output, [0x44, 0x33, 0x22, 0x11]);
  }

  /** The bytes of a transaction with one input and one output, given those of its parts. */
  lemma InFull(tx: Tx, version: seq<Byte>, mark: seq<Byte>, input: seq<Byte>, output: seq<Byte>, wit: seq<Byte>, lockTime: seq<Byte>)
    requires |tx.inputs| == 1 && |tx.outputs| == 1
    requires version == ToLE(tx.version, 4) && lockTime == ToLE(tx.lockTime, 4)
    requires input == InputBytes(tx.inputs[0]) && output == OutputBytes(tx.outputs[0])
    requires if HasWitness(tx) then mark == [0, 1] && wit == WitnessBytes(tx.inputs[0]) else mark == [] && wit == []
    ensures TxBytes(tx) == version + mark + ([1] + input + [1] + output) + wit + lockTime
  {
    One(tx);
    hide InputBytes, OutputBytes, WitnessBytes, ToLE, FromLE, HasWitness, BodyBytes, InputsBytes, OutputsBytes, WitnessesBytes;
    var body := [1] + input + [1] + output;
    assert TxBytes(tx) == version + (mark + (body + (wit + lockTime)));
    Reassociated(version, mark, body, wit, lockTime);
  }

  lemma Reassociated(a: seq<Byte>, b: seq<Byte>, c: seq<Byte>, d: seq<Byte>, e: seq<Byte>)
    ensures a + (b + (c + (d + e))) == a + b + c + d + e
  {
  }

  lemma NoneBetween(a: seq<Byte>, b: seq<Byte>, c: seq<Byte>)
    ensures a + [] + b + [] + c == a + b + c
  {
  }

  lemma SignedWitness(tx: Tx, id: seq<Byte>)
    requires tx.inputs == [Signed(id)]
    ensures HasWitness(tx) && WitnessBytes(Signed(id)) == [2, 2, 10, 11, 1, 12]
  {
    assert |WitnessOf(tx.inputs[0])| > 0;
    TwoItems();
    hide ItemCount, VarIntBytes;
  }

  lemma SignedInput(id: seq<Byte>)
    requires |id| == 32
    ensures InputBytes(Signed(id)) == id + [5, 0, 0, 0] + [3, 7, 8, 9] + [0xfd, 0xff, 0xff, 0xff]
  {
    ToFromLE(id);
    FourBytes();
    hide FromLE, ToLE;
    var i := Signed(id);
    assert VarIntBytes(3) == [3];
    assert [3] + [7, 8, 9] == [3, 7, 8, 9];
    assert InputBytes(i) == id + ([5, 0, 0, 0] + ([3] + ([7, 8, 9] + ([] + [0xfd, 0xff, 0xff, 0xff]))));
  }

  lemma UnsignedInput(id: seq<Byte>)
    requires |id| == 32
    ensures InputBytes(Unsigned(id)) == id + [5, 0, 0, 0] + [2, 0x6a, 0x01] + [8, 7, 6, 5, 4, 3, 2, 1] + [0xfd, 0xff, 0xff, 0xff]
  {
    ToFromLE(id);
    FourBytes();
    EightBytes();
    hide FromLE, ToLE;
    var i := Unsigned(id);
    assert VarIntBytes(2) == [2];
    assert [2] + [0x6a, 0x01] == [2, 0x6a, 0x01];
    assert InputBytes(i) == id + ([5, 0, 0, 0] + ([2] + ([0x6a, 0x01] + ([8, 7, 6, 5, 4, 3, 2, 1] + [0xfd, 0xff, 0xff, 0xff]))));
  }

  lemma PaidOutput()
    ensures OutputBytes(PAID) == [8, 7, 6, 5, 4, 3, 2, 1] + [1, 0x51]
  {
    EightBytes();
    hide ToLE;
    assert VarIntBytes(1) == [1];
    assert [1] + [0x51] == [1, 0x51];
  }

  lemma One(tx: Tx)
    requires |tx.inputs| == 1 && |tx.outputs| == 1
    ensures InputsBytes(tx.inputs) == InputBytes(tx.inputs[0]) && WitnessesBytes(tx.inputs) == WitnessBytes(tx.inputs[0])
    ensures OutputsBytes(tx.outputs) == OutputBytes(tx.outputs[0])
    ensures BodyBytes(tx) == [1] + InputBytes(tx.inputs[0]) + [1] + OutputBytes(tx.outputs[0])
  {
    hide InputBytes, OutputBytes, WitnessBytes;
    assert tx.inputs[1..] == [] && tx.outputs[1..] == [];
    assert VarIntBytes(1) == [1];
  }

  lemma TwoItems()
    ensures VarIntBytes(ItemCount([2, 10, 11, 1, 12])) == [2]
  {
    var wit: seq<Byte> := [2, 10, 11, 1, 12];
    assert ItemLength(wit) == 3 && wit[3..] == [1, 12];
    assert ItemLength([1, 12]) == 2;
  }

  lemma FourBytes()
    ensures ToLE(1, 4) == [1, 0, 0, 0] && ToLE(2, 4) == [2, 0, 0, 0] && ToLE(5, 4) == [5, 0, 0, 0]
    ensures ToLE(0xffff_fffd, 4) == [0xfd, 0xff, 0xff, 0xff] && ToLE(0x1122_3344, 4) == [0x44, 0x33, 0x22, 0x11]
  {
  }

  lemma EightBytes()
    ensures ToLE(0x0102_0304_0506_0708, 8) == [8, 7, 6, 5, 4, 3, 2, 1]
  {
    assert ToLE(0x0102_0304, 4) == [4, 3, 2, 1];
    assert ToLE(0x01_0203_0405, 5) == [5] + ToLE(0x0102_0304, 4);
    assert ToLE(0x0102_0304_0506, 6) == [6] + ToLE(0x01_0203_0405, 5);
    assert ToLE(0x01_0203_0405_0607, 7) == [7] + ToLE(0x0102_0304_0506, 6);
    assert ToLE(0x0102_0304_0506_0708, 8) == [8] + ToLE(0x01_0203_0405_0607, 7);
  }

  // ----- virtual sizes

  /** The virtual size of a signed transaction is a quarter of its weight, rounded up: bytes of the serialisation
      without witnesses count four times, the others once (section "Transaction size calculations" of BIP 141).
      It is so if no input has 253 or more witness items. */
  lemma VSizeIsWeight(tx: Tx)
    requires IsSigned(tx)
    requires forall k :: 0 <= k < |tx.inputs| ==> ItemCount(WitnessOf(tx.inputs[k])) < 0xfd
    ensures var weight := 3 * |TxBytes(Stripped(tx))| + |TxBytes(tx)|;
            weight <= 4 * VSize(tx) < weight + 4
  {
    hide TxBytes, InputsSize, OutputsSize, WitnessesSize;
    SizeIsLength(tx);
    StrippedIsBase(tx);
  }

  lemma StrippedIsBase(tx: Tx)
    requires IsSigned(tx)
    ensures |TxBytes(Stripped(tx))| == BaseSize(tx)
  {
    hide InputsBytes, OutputsBytes, WitnessesBytes, InputsSize, OutputsSize, WitnessesSize, ToLE;
    StrippedBytes(tx);
    InputsLength(tx.inputs);
    OutputsLength(tx.outputs);
  }

  /** The size assumed of an input not signed yet is that of one that spends to a key hash, with a signature of 73 and a
      public key of 33 bytes, each with a byte for its length. */
  lemma AssumedSizeIsLarge(i: TxInput, j: TxInput)
    requires !IsSignedInput(i) && !IsWitnessProgram(i)
    requires IsSignedInput(j) && |j.signature.value| <= 1 + 73 + 1 + 33
    ensures InputSize(j) <= InputSize(i) + 1
    ensures |j.signature.value| <= 1 + 72 + 1 + 33 ==> InputSize(j) <= InputSize(i)
  {
  }
}

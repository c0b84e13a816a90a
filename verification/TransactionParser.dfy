/** Parsing of transactions, `BRTransactionParse` of bitcoin/BRTransaction.c. */
module TransactionParser {
  import opened Wrappers
  import opened Bytes
  import opened Transactions
  import opened CompactSize
  import opened TransactionCodec

  /** `BRScriptPubKeyIsValid`, left abstract: the script is a known kind of scriptPubKey. */
  type IsScriptPubKey = seq<Byte> -> bool

  /** Double SHA-256, left abstract. */
  type Digest = seq<Byte> -> Hash

  /** A value read and the bytes after it; `None` if the buffer ends before. */
  type Read<T> = Option<(T, seq<Byte>)>

  // ----- reading as a function of the remaining bytes

  function ReadLE(buf: seq<Byte>, n: nat): Read<nat> {
    if n <= |buf| then Some((FromLE(buf[..n]), buf[n..])) else None
  }

  function ReadVarInt(buf: seq<Byte>): Read<nat> {
    if VarIntAt(buf).1 <= |buf| then Some((VarIntAt(buf).0, buf[VarIntAt(buf).1..])) else None
  }

  /** A counted string of bytes. */
  function ReadString(buf: seq<Byte>): Read<seq<Byte>> {
    match ReadVarInt(buf)
    case None => None
    case Some((n, rest)) => if n <= |rest| then Some((rest[..n], rest[n..])) else None
  }

  /** The script position: a valid scriptPubKey is an unsigned input's script, followed by its
      amount; anything else is a signature. */
  datatype Slot = Unsigned(script: seq<Byte>, amount: nat) | Signature(bytes: seq<Byte>)

  function ReadSlot(isKey: IsScriptPubKey, buf: seq<Byte>): Read<Slot> {
    match ReadString(buf)
    case None => None
    case Some((s, rest)) =>
      if !isKey(s) then Some((Signature(s), rest))
      else match ReadLE(rest, 8)
        case None => None
        case Some((amount, rest')) => Some((Unsigned(s, amount), rest'))
  }

  function MakeInput(txHash: Hash, index: nat, slot: Slot, sequence: nat, witnessFlag: bool): TxInput {
    var wit := if witnessFlag then None else Some([]);
    match slot
    case Unsigned(script, amount) => TxInput(txHash, index, amount, Some(script), None, wit, sequence)
    case Signature(bytes) => TxInput(txHash, index, 0, None, Some(bytes), wit, sequence)
  }

  function ReadInput(isKey: IsScriptPubKey, witnessFlag: bool, buf: seq<Byte>): Read<TxInput> {
    match ReadLE(buf, 32)
    case None => None
    case Some((txHash, b1)) =>
      match ReadLE(b1, 4)
      case None => None
      case Some((index, b2)) =>
        match ReadSlot(isKey, b2)
        case None => None
        case Some((slot, b3)) =>
          match ReadLE(b3, 4)
          case None => None
          case Some((sequence, b4)) => Some((MakeInput(txHash, index, slot, sequence, witnessFlag), b4))
  }

  function ReadOutput(buf: seq<Byte>): Read<TxOutput> {
    match ReadLE(buf, 8)
    case None => None
    case Some((amount, b1)) =>
      match ReadString(b1)
      case None => None
      case Some((script, b2)) => Some((TxOutput(amount, script), b2))
  }

  function ReadInputs(isKey: IsScriptPubKey, witnessFlag: bool, buf: seq<Byte>, n: nat): Read<seq<TxInput>>
    decreases n
  {
    if n == 0 then Some(([], buf))
    else match ReadInput(isKey, witnessFlag, buf)
      case None => None
      case Some((i, rest)) =>
        match ReadInputs(isKey, witnessFlag, rest, n - 1)
        case None => None
        case Some((more, rest')) => Some(([i] + more, rest'))
  }

  function ReadOutputs(buf: seq<Byte>, n: nat): Read<seq<TxOutput>>
    decreases n
  {
    if n == 0 then Some(([], buf))
    else match ReadOutput(buf)
      case None => None
      case Some((o, rest)) =>
        match ReadOutputs(rest, n - 1)
        case None => None
        case Some((more, rest')) => Some(([o] + more, rest'))
  }

  /** A witness: a count of items, and the raw bytes of those items. */
  function ReadWitness(buf: seq<Byte>): Read<seq<Byte>> {
    match ReadVarInt(buf)
    case None => None
    case Some((count, rest)) =>
      var n := ItemsLength(rest, count);
      if n <= |rest| then Some((rest[..n], rest[n..])) else None
  }

  function ReadWitnesses(buf: seq<Byte>, inputs: seq<TxInput>): Read<seq<TxInput>> {
    if inputs == [] then Some(([], buf))
    else match ReadWitness(buf)
      case None => None
      case Some((wit, rest)) =>
        match ReadWitnesses(rest, inputs[1..])
        case None => None
        case Some((more, rest')) => Some(([inputs[0].(wit := Some(wit))] + more, rest'))
  }

  /** The number of inputs, preceded by marker and flag if there are witnesses. */
  function ReadHeader(buf: seq<Byte>): Read<(nat, bool)> {
    match ReadVarInt(buf)
    case None => None
    case Some((n, rest)) =>
      if n > 0 then Some(((n, false), rest))
      else if rest == [] || rest[0] == 0 then None
      else match ReadVarInt(rest[1..])
        case None => None
        case Some((n', rest')) => if n' > 0 then Some(((n', true), rest')) else None
  }

  /** Inputs, outputs, and the bytes after them. */
  function ReadBody(isKey: IsScriptPubKey, witnessFlag: bool, n: nat, buf: seq<Byte>): Read<(seq<TxInput>, seq<TxOutput>)> {
    match ReadInputs(isKey, witnessFlag, buf, n)
    case None => None
    case Some((inputs, b1)) =>
      match ReadVarInt(b1)
      case None => None
      case Some((m, b2)) =>
        match ReadOutputs(b2, m)
        case None => None
        case Some((outputs, b3)) => Some(((inputs, outputs), b3))
  }

  predicate AllSigned(inputs: seq<TxInput>) {
    forall i :: 0 <= i < |inputs| ==> inputs[i].script.None?
  }

  /** What a buffer with the given contents parses to. */
  function ParseTx(isKey: IsScriptPubKey, digest: Digest, buf: seq<Byte>): Option<Tx> {
    match ReadLE(buf, 4)
    case None => None
    case Some((version, b1)) =>
      match ReadHeader(b1)
      case None => None
      case Some(((n, flag), b2)) =>
        match ReadBody(isKey, flag, n, b2)
        case None => None
        case Some(((inputs, outputs), b3)) =>
          match if flag then ReadWitnesses(b3, inputs) else Some((inputs, b3))
          case None => None
          case Some((inputs', b4)) =>
            match ReadLE(b4, 4)
            case None => None
            case Some((lockTime, b5)) =>
              var preimage := Preimage(version, buf, flag, |b3|, |b5|, lockTime);
              Some(Tx(if AllSigned(inputs) then digest(preimage) else 0, version, inputs', outputs, lockTime, TX_UNCONFIRMED, 0))
  }

  /** The bytes hashed for the transaction id: without marker, flag and witnesses.  `tail` and `rest`
      are the numbers of bytes after the outputs and after the whole transaction. */
  function Preimage(version: nat, buf: seq<Byte>, flag: bool, tail: nat, rest: nat, lockTime: nat): seq<Byte> {
    if tail > |buf| || rest > |buf| then []
    else if flag then ToLE(version, 4) + (if 6 <= |buf| - tail then buf[6..|buf| - tail] else []) + ToLE(lockTime, 4)
    else buf[..|buf| - rest]
  }

  // ----- the loops, over an offset

  /** A little-endian integer of `n` bytes at `off`, zero if the buffer ends before. */
  function LEAt(buf: seq<Byte>, off: nat, n: nat): nat {
    if off + n <= |buf| then FromLE(buf[off..off + n]) else 0
  }

  /** The bytes from `off`, or none past the end. */
  function From(buf: seq<Byte>, off: nat): seq<Byte> {
    if off <= |buf| then buf[off..] else []
  }

  /** A read at `off` that ends at `end`, past the end of the buffer if it fails. */
  predicate ReadsAt<T(==)>(buf: seq<Byte>, off: nat, r: Read<T>, value: T, end: nat) {
    if off <= |buf| && r.Some? then off <= end <= |buf| && r == Some((value, buf[end..])) else end > |buf|
  }

  lemma LEReads(buf: seq<Byte>, off: nat, n: nat)
    ensures off <= |buf| ==> ReadsAt(buf, off, ReadLE(buf[off..], n), LEAt(buf, off, n), off + n)
  {
    hide FromLE;
    if off + n <= |buf| {
      assert buf[off..][..n] == buf[off..off + n] && buf[off..][n..] == buf[off + n..];
    }
  }

  lemma VarIntReadsAt(buf: seq<Byte>, off: nat)
    ensures off <= |buf| ==>
              ReadsAt(buf, off, ReadVarInt(buf[off..]), VarIntAt(From(buf, off)).0, off + VarIntAt(From(buf, off)).1)
  {
    hide VarIntAt;
    if off <= |buf| {
      var n := VarIntAt(buf[off..]).1;
      assert off + n <= |buf| ==> buf[off..][n..] == buf[off + n..];
    }
  }

  lemma SliceOfRest(buf: seq<Byte>, off: nat, n: nat)
    requires off + n <= |buf|
    ensures buf[off..][..n] == buf[off..off + n] && buf[off..][n..] == buf[off + n..]
  {
  }

  /** The script position of an input, with the amount that follows a script. */
  method ParseSlot(isKey: IsScriptPubKey, buf: seq<Byte>, off0: nat) returns (slot: Slot, off: nat)
    ensures off0 <= |buf| ==> ReadsAt(buf, off0, ReadSlot(isKey, buf[off0..]), slot, off)
    ensures off0 > |buf| ==> off > |buf|
  {
    hide FromLE, VarIntAt, ReadLE, ReadVarInt;
    off := off0;
    VarIntReadsAt(buf, off);
    var (sLen, len) := VarIntAt(From(buf, off));
    off := off + len;
    LEReads(buf, off + sLen, 8);
    slot := Signature([]);
    if off + sLen <= |buf| {
      SliceOfRest(buf, off, sLen);
      if isKey(buf[off..off + sLen]) {
        slot := Unsigned(buf[off..off + sLen], LEAt(buf, off + sLen, 8));
        off := off + 8;
      } else {
        slot := Signature(buf[off..off + sLen]);
      }
    }
    off := off + sLen;
  }

  /** One input of the input loop of `BRTransactionParse`. */
  method ParseInput(isKey: IsScriptPubKey, witnessFlag: bool, buf: seq<Byte>, off0: nat) returns (input: TxInput, off: nat, isSigned: bool)
    requires off0 <= |buf|
    ensures ReadsAt(buf, off0, ReadInput(isKey, witnessFlag, buf[off0..]), input, off)
    ensures isSigned == input.script.None?
  {
    hide FromLE, ReadLE, ReadSlot;
    off := off0;
    LEReads(buf, off, 32);
    var txHash := LEAt(buf, off, 32);
    off := off + 32;
    LEReads(buf, off, 4);
    var index := LEAt(buf, off, 4);
    off := off + 4;
    var slot;
    slot, off := ParseSlot(isKey, buf, off);
    isSigned := slot.Signature?;
    LEReads(buf, off, 4);
    var sequence := LEAt(buf, off, 4);
    off := off + 4;
    input := MakeInput(txHash, index, slot, sequence, witnessFlag);
  }

  /** A list read partly: `done` is the part read, `more` what the rest reads to. */
  predicate IsSoFar<T(==)>(all: Read<seq<T>>, done: seq<T>, more: Read<seq<T>>) {
    all == match more case None => None case Some((s, rest)) => Some((done + s, rest))
  }

  function Prepend<T>(x: T, more: Read<seq<T>>): Read<seq<T>> {
    match more case None => None case Some((s, rest)) => Some(([x] + s, rest))
  }

  lemma SoFarStart<T>(all: Read<seq<T>>)
    ensures IsSoFar(all, [], all)
  {
    if all.Some? {
      assert [] + all.value.0 == all.value.0;
    }
  }

  lemma SoFarStep<T>(all: Read<seq<T>>, done: seq<T>, x: T, more: Read<seq<T>>)
    requires IsSoFar(all, done, Prepend(x, more))
    ensures IsSoFar(all, done + [x], more)
  {
    if more.Some? {
      assert done + ([x] + more.value.0) == (done + [x]) + more.value.0;
    }
  }

  lemma SoFarEnd<T>(all: Read<seq<T>>, done: seq<T>, rest: seq<Byte>)
    requires IsSoFar(all, done, Some(([], rest)))
    ensures all == Some((done, rest))
  {
    assert done + [] == done;
  }

  /** The input loop. */
  method ParseInputs(isKey: IsScriptPubKey, witnessFlag: bool, buf: seq<Byte>, off0: nat, n: nat)
      returns (inputs: seq<TxInput>, off: nat, isSigned: bool)
    requires off0 <= |buf|
    ensures ReadsAt(buf, off0, ReadInputs(isKey, witnessFlag, buf[off0..], n), inputs, off)
    ensures off <= |buf| ==> isSigned == AllSigned(inputs)
  {
    hide ReadInput, IsSoFar, MakeInput;
    inputs, off, isSigned := [], off0, true;
    var i := 0;
    ghost var all := ReadInputs(isKey, witnessFlag, buf[off0..], n);
    SoFarStart(all);
    while off <= |buf| && i < n
      invariant i <= n && (off <= |buf| ==> isSigned == AllSigned(inputs))
      invariant off <= |buf| ==> off0 <= off && IsSoFar(all, inputs, ReadInputs(isKey, witnessFlag, buf[off..], n - i))
      invariant off > |buf| ==> IsSoFar(all, inputs, None)
      decreases n - i
    {
      var input, next, signed := ParseInput(isKey, witnessFlag, buf, off);
      off := next;
      if off <= |buf| {
        SoFarStep(all, inputs, input, ReadInputs(isKey, witnessFlag, buf[off..], n - i - 1));
      } else {
        SoFarFailed(all, inputs, inputs + [input]);
      }
      OneMoreSigned(inputs, input);
      inputs := inputs + [input];
      isSigned := isSigned && signed;
      i := i + 1;
    }
    if off <= |buf| {
      SoFarEnd(all, inputs, buf[off..]);
    } else {
      SoFarFailed(all, inputs, []);
    }
  }

  lemma SoFarFailed<T>(all: Read<seq<T>>, done: seq<T>, done': seq<T>)
    requires IsSoFar(all, done, None)
    ensures all.None? && IsSoFar(all, done', None)
  {
  }

  lemma OneMoreSigned(inputs: seq<TxInput>, input: TxInput)
    ensures AllSigned(inputs + [input]) <==> AllSigned(inputs) && input.script.None?
  {
    if AllSigned(inputs + [input]) {
      assert (inputs + [input])[|inputs|] == input;
      forall i | 0 <= i < |inputs| ensures inputs[i].script.None? {
        assert (inputs + [input])[i] == inputs[i];
      }
    }
  }

  /** One output of the output loop. */
  method ParseOutput(buf: seq<Byte>, off0: nat) returns (output: TxOutput, off: nat)
    requires off0 <= |buf|
    ensures ReadsAt(buf, off0, ReadOutput(buf[off0..]), output, off)
  {
    hide FromLE, VarIntAt, ReadLE, ReadVarInt;
    off := off0;
    LEReads(buf, off, 8);
    var amount := LEAt(buf, off, 8);
    off := off + 8;
    VarIntReadsAt(buf, off);
    var (sLen, len) := VarIntAt(From(buf, off));
    off := off + len;
    var script := [];
    if off + sLen <= |buf| {
      SliceOfRest(buf, off, sLen);
      script := buf[off..off + sLen];
    }
    off := off + sLen;
    output := TxOutput(amount, script);
  }

  /** The output loop. */
  method ParseOutputs(buf: seq<Byte>, off0: nat, n: nat) returns (outputs: seq<TxOutput>, off: nat)
    requires off0 <= |buf|
    ensures ReadsAt(buf, off0, ReadOutputs(buf[off0..], n), outputs, off)
  {
    hide ReadOutput, IsSoFar;
    outputs, off := [], off0;
    var i := 0;
    ghost var all := ReadOutputs(buf[off0..], n);
    SoFarStart(all);
    while off <= |buf| && i < n
      invariant i <= n
      invariant off <= |buf| ==> off0 <= off && IsSoFar(all, outputs, ReadOutputs(buf[off..], n - i))
      invariant off > |buf| ==> IsSoFar(all, outputs, None)
      decreases n - i
    {
      var output, next := ParseOutput(buf, off);
      off := next;
      if off <= |buf| {
        SoFarStep(all, outputs, output, ReadOutputs(buf[off..], n - i - 1));
      } else {
        SoFarFailed(all, outputs, outputs + [output]);
      }
      outputs := outputs + [output];
      i := i + 1;
    }
    if off <= |buf| {
      SoFarEnd(all, outputs, buf[off..]);
    } else {
      SoFarFailed(all, outputs, []);
    }
  }

  /** The loop that adds up the lengths of the items of one witness. */
  method MeasureItems(buf: seq<Byte>, off: nat, count: nat) returns (sLen: nat)
    requires off <= |buf|
    ensures sLen == ItemsLength(buf[off..], count)
  {
    hide VarIntAt;
    sLen := 0;
    for j := 0 to count
      invariant sLen + ItemsLength(From(buf, off + sLen), count - j) == ItemsLength(buf[off..], count)
    {
      ghost var rest := From(buf, off + sLen);
      var (r, len) := VarIntAt(From(buf, off + sLen));
      assert ItemLength(rest) <= |rest| ==> rest[ItemLength(rest)..] == From(buf, off + sLen + ItemLength(rest));
      assert ItemLength(rest) > |rest| ==> From(buf, off + sLen + ItemLength(rest)) == [];
      sLen := sLen + r;
      sLen := sLen + len;
    }
  }

  /** One witness of the witness loop. */
  method ParseWitness(buf: seq<Byte>, off0: nat) returns (wit: seq<Byte>, off: nat)
    requires off0 <= |buf|
    ensures ReadsAt(buf, off0, ReadWitness(buf[off0..]), wit, off)
  {
    hide VarIntAt, ReadVarInt, ItemsLength;
    VarIntReadsAt(buf, off0);
    var (count, len) := VarIntAt(From(buf, off0));
    off, wit := off0 + len, [];
    if off <= |buf| {
      var sLen := MeasureItems(buf, off, count);
      if off + sLen <= |buf| {
        SliceOfRest(buf, off, sLen);
        wit := buf[off..off + sLen];
      }
      off := off + sLen;
    }
  }

  /** The witness loop. */
  method ParseWitnesses(buf: seq<Byte>, off0: nat, inputs0: seq<TxInput>) returns (inputs: seq<TxInput>, off: nat)
    requires off0 <= |buf|
    ensures ReadsAt(buf, off0, ReadWitnesses(buf[off0..], inputs0), inputs, off)
  {
    hide ReadWitness, IsSoFar;
    inputs, off := [], off0;
    var i := 0;
    ghost var all := ReadWitnesses(buf[off0..], inputs0);
    SoFarStart(all);
    assert inputs0[0..] == inputs0;
    while off <= |buf| && i < |inputs0|
      invariant i <= |inputs0|
      invariant off <= |buf| ==> off0 <= off && IsSoFar(all, inputs, ReadWitnesses(buf[off..], inputs0[i..]))
      invariant off > |buf| ==> IsSoFar(all, inputs, None)
      decreases |inputs0| - i
    {
      assert inputs0[i..][1..] == inputs0[i + 1..];
      var wit, next := ParseWitness(buf, off);
      off := next;
      var input := inputs0[i].(wit := Some(wit));
      if off <= |buf| {
        SoFarStep(all, inputs, input, ReadWitnesses(buf[off..], inputs0[i + 1..]));
      } else {
        SoFarFailed(all, inputs, inputs + [input]);
      }
      inputs := inputs + [input];
      i := i + 1;
    }
    if off <= |buf| {
      SoFarEnd(all, inputs, buf[off..]);
    } else {
      SoFarFailed(all, inputs, []);
    }
  }

  /** Version, number of inputs, and whether marker and flag announce witnesses. */
  method ParseHeader(buf: seq<Byte>) returns (version: nat, inCount: nat, witnessFlag: bool, off: nat)
    ensures off <= |buf| ==> 4 <= off && ReadLE(buf, 4) == Some((version, buf[4..]))
    ensures off <= |buf| && inCount > 0 ==> ReadHeader(buf[4..]) == Some(((inCount, witnessFlag), buf[off..]))
    ensures off > |buf| || inCount == 0 ==> ReadLE(buf, 4).None? || ReadHeader(ReadLE(buf, 4).value.1).None?
    ensures off <= |buf| && witnessFlag ==> off >= 6
  {
    hide FromLE, VarIntAt, ReadLE, ReadVarInt;
    off, witnessFlag := 0, false;
    LEReads(buf, 0, 4);
    assert buf[0..] == buf;
    version := LEAt(buf, off, 4);
    off := off + 4;
    VarIntReadsAt(buf, off);
    var head := VarIntAt(From(buf, off));
    inCount, off := head.0, off + head.1;
    ghost var headOff := off;
    if inCount == 0 && off + 1 <= |buf| {
      witnessFlag := buf[off] != 0;
      off := off + 1;
    }
    if witnessFlag {
      assert buf[headOff..][1..] == buf[off..] && buf[headOff..][0] == buf[headOff];
      VarIntReadsAt(buf, off);
      head := VarIntAt(From(buf, off));
      inCount, off := head.0, off + head.1;
    }
  }

  /** `BRTransactionParse`.  Reads past the end yield zero and move on, and the transaction is
      refused if the offset has passed the end or there are no inputs: nothing later can bring the
      offset back or add an input. */
  method Parse(isKey: IsScriptPubKey, digest: Digest, buf: seq<Byte>) returns (tx: Option<Tx>)
    ensures tx == ParseTx(isKey, digest, buf)
  {
    hide FromLE, ToLE, VarIntAt, ReadLE, ReadVarInt, ReadHeader, ReadInputs, ReadOutputs, ReadWitnesses, AllSigned;
    tx := None;
    var version, inCount, witnessFlag, off := ParseHeader(buf);
    if off > |buf| || inCount == 0 {
      return;
    }
    var inputs, isSigned;
    inputs, off, isSigned := ParseInputs(isKey, witnessFlag, buf, off, inCount);
    if off > |buf| {
      return;
    }
    VarIntReadsAt(buf, off);
    var (outCount, len) := VarIntAt(From(buf, off));
    off := off + len;
    if off > |buf| {
      return;
    }
    var outputs;
    outputs, off := ParseOutputs(buf, off, outCount);
    if off > |buf| {
      return;
    }
    var witnessOff := off;
    var inputs' := inputs;
    if witnessFlag {
      inputs', off := ParseWitnesses(buf, off, inputs);
    }
    LEReads(buf, off, 4);
    var lockTime := LEAt(buf, off, 4);
    off := off + 4;
    if off > |buf| {
      return;
    }
    var txHash := 0;
    if isSigned && witnessFlag {
      txHash := digest(ToLE(version, 4) + buf[6..witnessOff] + ToLE(lockTime, 4));
    } else if isSigned {
      txHash := digest(buf[..off]);
    }
    tx := Some(Tx(txHash, version, inputs', outputs, lockTime, TX_UNCONFIRMED, 0));
  }
}

/** Payment details and their outputs, bitcoin/BRPaymentProtocol.c, with the copies kept of unknown fields. */
module PaymentProtocol {
  import opened Wrappers
  import opened Bytes
  import opened ProtoBuf
  import opened OffsetLoops
  import opened FieldLoops
  import opened UnknownFields

  const MAIN: seq<Byte> := [109, 97, 105, 110]  // "main"

  /** An output to pay, with the flag that says its amount was left out and the copies of unknown fields. */
  datatype Output = Output(amount: nat, amountDefaulted: bool, script: seq<Byte>, unknown: seq<Byte>)

  /** Strings are sequences of bytes.  The flags say which fields were left out. */
  datatype Details = Details(network: seq<Byte>, networkDefaulted: bool, outputs: seq<Output>,
                             time: nat, timeDefaulted: bool, expires: nat, expiresDefaulted: bool,
                             memo: Option<seq<Byte>>, paymentURL: Option<seq<Byte>>, merchantData: Option<seq<Byte>>,
                             unknown: seq<Byte>)

  // ----- serialised form

  function IntUnless(defaulted: bool, key: nat, i: nat): seq<Byte> {
    if defaulted then [] else IntField(key, i)
  }

  /** What `strlen` sees of a string. */
  function CString(s: seq<Byte>): seq<Byte> {
    if s == [] || s[0] == 0 then [] else [s[0]] + CString(s[1..])
  }

  function StringIf(key: nat, s: Option<seq<Byte>>): seq<Byte> {
    match s case None => [] case Some(v) => BytesField(key, CString(v))
  }

  function BytesIf(key: nat, s: Option<seq<Byte>>): seq<Byte> {
    match s case None => [] case Some(v) => BytesField(key, v)
  }

  function OutputBytes(o: Output): seq<Byte> {
    IntUnless(o.amountDefaulted, 1, o.amount) + BytesField(2, o.script) + o.unknown
  }

  function OutputsBytes(s: seq<Output>): seq<Byte> {
    if s == [] then [] else OutputsBytes(s[..|s| - 1]) + BytesField(2, OutputBytes(s[|s| - 1]))
  }

  function DetailsBytes(d: Details): seq<Byte> {
    (if d.networkDefaulted then [] else BytesField(1, CString(d.network)))
    + OutputsBytes(d.outputs)
    + IntUnless(d.timeDefaulted, 3, d.time)
    + IntUnless(d.expiresDefaulted, 4, d.expires)
    + StringIf(5, d.memo)
    + StringIf(6, d.paymentURL)
    + BytesIf(7, d.merchantData)
    + d.unknown
  }

  // ----- creation

  /** `BRPaymentProtocolDetailsNew`, with outputs whose context says that nothing was left out. */
  function NewDetails(network: Option<seq<Byte>>, outputs: seq<(nat, seq<Byte>)>, time: nat, expires: nat,
                      memo: Option<seq<Byte>>, paymentURL: Option<seq<Byte>>, merchantData: Option<seq<Byte>>): Details {
    Details(if network.Some? then network.value else MAIN, network.None?,
            seq(|outputs|, i requires 0 <= i < |outputs| => Output(outputs[i].0, false, outputs[i].1, [])),
            time, false, expires, false, memo, paymentURL, merchantData, [])
  }

  // ----- writing

  /** `strlen`, as the characters before the first zero. */
  method Characters(s: seq<Byte>) returns (r: seq<Byte>)
    ensures r == CString(s)
  {
    r := [];
    var i := 0;
    assert s[0..] == s;
    while i < |s| && s[i] != 0
      invariant i <= |s| && r + CString(s[i..]) == CString(s)
    {
      assert s[i..][1..] == s[i + 1..];
      assert r + ([s[i]] + CString(s[i + 1..])) == (r + [s[i]]) + CString(s[i + 1..]);
      r := r + [s[i]];
      i := i + 1;
    }
  }

  /** `_BRPaymentProtocolOutputSerialize`: the length needed without a buffer; with one, the same
      length and the bytes, or zero if they do not fit. */
  method SerializeOutput(o: Output, buf: array?<Byte>) returns (n: nat)
    modifies if buf == null then {} else {buf}
    ensures n == if buf == null || |OutputBytes(o)| <= buf.Length then |OutputBytes(o)| else 0
    ensures buf != null && |OutputBytes(o)| <= buf.Length ==> buf[..n] == OutputBytes(o)
  {
    hide IntField, BytesField;
    var off := 0;
    ghost var done: seq<Byte> := [];
    if !o.amountDefaulted {
      off := SetInt(buf, o.amount, 1, off, done);
      done := done + IntField(1, o.amount);
    }
    assert done == IntUnless(o.amountDefaulted, 1, o.amount);
    off := SetBytes(buf, o.script, 2, off, done);
    off := SetData(buf, o.unknown, off, done + BytesField(2, o.script));
    n := if buf == null || off <= buf.Length then off else 0;
  }

  /** `BRPaymentProtocolDetailsSerialize`, likewise.  Each output is first measured, then written
      to a buffer of its own. */
  method SerializeDetails(d: Details, buf: array?<Byte>) returns (n: nat)
    modifies if buf == null then {} else {buf}
    ensures n == if buf == null || |DetailsBytes(d)| <= buf.Length then |DetailsBytes(d)| else 0
    ensures buf != null && |DetailsBytes(d)| <= buf.Length ==> buf[..n] == DetailsBytes(d)
  {
    hide IntField, BytesField, OutputsBytes, CString;
    var off := 0;
    ghost var done: seq<Byte> := [];
    if !d.networkDefaulted {
      var network := Characters(d.network);
      off := SetBytes(buf, network, 1, off, done);
      done := done + BytesField(1, network);
    }
    assert done == if d.networkDefaulted then [] else BytesField(1, CString(d.network));
    off := SetOutputs(buf, d.outputs, off, done);
    done := done + OutputsBytes(d.outputs);
    off := SetTimes(d, buf, off, done);
    done := done + IntUnless(d.timeDefaulted, 3, d.time) + IntUnless(d.expiresDefaulted, 4, d.expires);
    off := SetStrings(d, buf, off, done);
    done := done + StringIf(5, d.memo) + StringIf(6, d.paymentURL) + BytesIf(7, d.merchantData);
    off := SetData(buf, d.unknown, off, done);
    n := if buf == null || off <= buf.Length then off else 0;
  }

  method SetTimes(d: Details, buf: array?<Byte>, off0: nat, ghost done0: seq<Byte>) returns (off: nat)
    requires Holds(buf, off0, done0)
    modifies if buf == null then {} else {buf}
    ensures Holds(buf, off, done0 + IntUnless(d.timeDefaulted, 3, d.time) + IntUnless(d.expiresDefaulted, 4, d.expires))
  {
    hide IntField;
    off := off0;
    ghost var done := done0;
    if !d.timeDefaulted {
      off := SetInt(buf, d.time, 3, off, done);
      done := done + IntField(3, d.time);
    }
    assert done == done0 + IntUnless(d.timeDefaulted, 3, d.time);
    if !d.expiresDefaulted {
      off := SetInt(buf, d.expires, 4, off, done);
      done := done + IntField(4, d.expires);
    }
    assert done == done0 + IntUnless(d.timeDefaulted, 3, d.time) + IntUnless(d.expiresDefaulted, 4, d.expires);
  }

  method SetStrings(d: Details, buf: array?<Byte>, off0: nat, ghost done0: seq<Byte>) returns (off: nat)
    requires Holds(buf, off0, done0)
    modifies if buf == null then {} else {buf}
    ensures Holds(buf, off, done0 + StringIf(5, d.memo) + StringIf(6, d.paymentURL) + BytesIf(7, d.merchantData))
  {
    hide BytesField, CString;
    off := off0;
    ghost var done := done0;
    if d.memo.Some? {
      var s := Characters(d.memo.value);
      off := SetBytes(buf, s, 5, off, done);
      done := done + BytesField(5, s);
    }
    assert done == done0 + StringIf(5, d.memo);
    if d.paymentURL.Some? {
      var s := Characters(d.paymentURL.value);
      off := SetBytes(buf, s, 6, off, done);
      done := done + BytesField(6, s);
    }
    assert done == done0 + StringIf(5, d.memo) + StringIf(6, d.paymentURL);
    if d.merchantData.Some? {
      off := SetBytes(buf, d.merchantData.value, 7, off, done);
      done := done + BytesField(7, d.merchantData.value);
    }
    assert done == done0 + StringIf(5, d.memo) + StringIf(6, d.paymentURL) + BytesIf(7, d.merchantData);
  }

  method SetOutputs(buf: array?<Byte>, outputs: seq<Output>, off0: nat, ghost done: seq<Byte>) returns (off: nat)
    requires Holds(buf, off0, done)
    modifies if buf == null then {} else {buf}
    ensures Holds(buf, off, done + OutputsBytes(outputs))
  {
    hide BytesField, OutputBytes;
    off := off0;
    assert outputs[..0] == [] && done + [] == done;
    var outLen: nat := 0x100;
    for i := 0 to |outputs|
      invariant Holds(buf, off, done + OutputsBytes(outputs[..i]))
    {
      assert outputs[..i + 1][..i] == outputs[..i];
      var l := SerializeOutput(outputs[i], null);
      if l > outLen {
        outLen := l;
      }
      var outBuf := new Byte[outLen];
      l := SerializeOutput(outputs[i], outBuf);
      off := SetBytes(buf, outBuf[..l], 2, off, done + OutputsBytes(outputs[..i]));
      assert done + OutputsBytes(outputs[..i]) + BytesField(2, outBuf[..l]) == done + OutputsBytes(outputs[..i + 1]);
    }
    assert outputs[..|outputs|] == outputs;
  }

  // ----- the effect of one field

  /** An output while it is read; without a script it is dropped. */
  datatype Draft = Draft(amount: nat, defaulted: bool, script: Option<seq<Byte>>, unknown: seq<Byte>)

  const EMPTY_OUTPUT := Draft(0, true, None, [])

  /** What copying `data` gives: nothing from NULL, and no result where more is promised than is there. */
  function Copied(data: Buffer): Option<Option<seq<Byte>>> {
    if data.mem.Some? && |data.mem.value| != data.len then None else Some(data.mem)
  }

  function ApplyToOutput(room: nat, o: Draft, key: nat, i: nat, data: Buffer): Option<Draft> {
    if key / 8 == 1 then Some(o.(amount := i, defaulted := false))
    else if key / 8 == 2 then
      match Copied(data) case None => None case Some(s) => Some(o.(script := s))
    else
      match Keep(room, o.unknown, key, i, data) case None => None case Some(u) => Some(o.(unknown := u))
  }

  function OutputEffect(room: nat): Effect<Draft> {
    (o: Draft, key: nat, i: nat, data: Buffer) => ApplyToOutput(room, o, key, i, data)
  }

  /** The output read from a buffer; `None` if that does not come back. */
  function ParsedOutput(room: nat, buf: Buffer): Option<Draft> {
    FieldsResult(buf, OutputEffect(room), EMPTY_OUTPUT)
  }

  /** The details while they are read; an absent network is still `None` here. */
  datatype Reading = Reading(network: Option<seq<Byte>>, d: Details)

  const EMPTY := Reading(None, Details([], false, [], 0, true, 0, true, None, None, None, []))

  /** The new value of a string or of bytes: NULL leaves the old one, unless its length is zero. */
  function Text(data: Buffer, before: Option<seq<Byte>>): Option<Option<seq<Byte>>> {
    if data.mem.None? && data.len == 0 then Some(Some([]))
    else
      match Copied(data) case None => None case Some(s) => Some(if s.Some? then s else before)
  }

  function AddOutput(d: Details, o: Draft): Details {
    if o.script.Some? then d.(outputs := d.outputs + [Output(o.amount, o.defaulted, o.script.value, o.unknown)]) else d
  }

  /** The effect of one field of the details. */
  function Apply(room: nat, r: Reading, key: nat, i: nat, data: Buffer): Option<Reading> {
    match key / 8
    case 1 => (match Text(data, r.network) case None => None case Some(s) => Some(r.(network := s)))
    case 2 => (match ParsedOutput(room, data) case None => None case Some(o) => Some(r.(d := AddOutput(r.d, o))))
    case 3 => Some(r.(d := r.d.(time := i, timeDefaulted := false)))
    case 4 => Some(r.(d := r.d.(expires := i, expiresDefaulted := false)))
    case 5 => (match Text(data, r.d.memo) case None => None case Some(s) => Some(r.(d := r.d.(memo := s))))
    case 6 => (match Text(data, r.d.paymentURL) case None => None case Some(s) => Some(r.(d := r.d.(paymentURL := s))))
    case 7 => (match Text(data, r.d.merchantData) case None => None case Some(s) => Some(r.(d := r.d.(merchantData := s))))
    case _ =>
      match Keep(room, r.d.unknown, key, i, data) case None => None case Some(u) => Some(r.(d := r.d.(unknown := u)))
  }

  function DetailsEffect(room: nat): Effect<Reading> {
    (r: Reading, key: nat, i: nat, data: Buffer) => Apply(room, r, key, i, data)
  }

  function Finished(r: Reading): Details {
    if r.network.Some? then r.d.(network := r.network.value) else r.d.(network := MAIN, networkDefaulted := true)
  }

  /** The details read from a buffer; `None` if the source does not return them. */
  function ParsedDetails(room: nat, buf: seq<Byte>): Option<Details> {
    match FieldsResult(Whole(buf), DetailsEffect(room), EMPTY) case None => None case Some(r) => Some(Finished(r))
  }

  // ----- reading

  /** `BRTxOutputSetScript`. */
  method SetScript(o: Draft, data: Buffer) returns (r: Option<Draft>)
    ensures r == match Copied(data) case None => None case Some(s) => Some(o.(script := s))
  {
    if data.mem.Some? && |data.mem.value| != data.len {
      return None;
    }
    r := Some(o.(script := data.mem));
  }

  /** `_BRPaymentProtocolOutputParse`.  The source does not count its turns; what the count leaves
      undecided never ends. */
  method ParseOutput(room: nat, buf: Buffer) returns (r: Option<Draft>)
    requires IsBuffer(buf)
    ensures r == ParsedOutput(room, buf)
  {
    hide FieldAt, Keep, Copied;
    var o, off: nat, count: nat := EMPTY_OUTPUT, 0, buf.len;
    while off < buf.len
      invariant Turns(buf.len, FieldStep(buf, OutputEffect(room)), off, o, count)
             == Turns(buf.len, FieldStep(buf, OutputEffect(room)), 0, EMPTY_OUTPUT, buf.len)
      decreases count
    {
      if count == 0 {
        return None;
      }
      var t := ReadFieldAt(buf, off);
      if t.None? {
        return None;
      }
      var Taken(key, i, data, next) := t.value;
      if key / 8 == 1 {
        o := o.(amount := i, defaulted := false);
      } else if key / 8 == 2 {
        var s := SetScript(o, data);
        if s.None? {
          return None;
        }
        o := s.value;
      } else {
        var u := StoreUnknown(room, o.unknown, key, i, data);
        if u.None? {
          return None;
        }
        o := o.(unknown := u.value);
      }
      off, count := next, count - 1;
    }
    r := Some(o);
  }

  /** `_ProtoBufString` and `_ProtoBufBytes`. */
  method SetText(data: Buffer, before: Option<seq<Byte>>) returns (r: Option<Option<seq<Byte>>>)
    ensures r == Text(data, before)
  {
    r := Some(before);
    if data.mem.Some? || data.len == 0 {
      if data.mem.Some? && |data.mem.value| != data.len {
        return None;
      }
      r := Some(Some(if data.mem.Some? then data.mem.value else []));
    }
  }

  /** One turn of the loop below. */
  method TakeField(room: nat, r0: Reading, key: nat, i: nat, data: Buffer) returns (r: Option<Reading>)
    requires IsBuffer(data)
    ensures r == Apply(room, r0, key, i, data)
  {
    hide ParsedOutput, Keep, Text;
    var d := r0.d;
    if key / 8 == 1 {
      var s := SetText(data, r0.network);
      r := if s.None? then None else Some(r0.(network := s.value));
    } else if key / 8 == 2 {
      var o := ParseOutput(room, data);
      if o.None? {
        return None;
      }
      if o.value.script.Some? {
        d := d.(outputs := d.outputs + [Output(o.value.amount, o.value.defaulted, o.value.script.value, o.value.unknown)]);
      }
      r := Some(r0.(d := d));
    } else if key / 8 == 3 {
      r := Some(r0.(d := d.(time := i, timeDefaulted := false)));
    } else if key / 8 == 4 {
      r := Some(r0.(d := d.(expires := i, expiresDefaulted := false)));
    } else if key / 8 == 5 {
      var s := SetText(data, d.memo);
      r := if s.None? then None else Some(r0.(d := d.(memo := s.value)));
    } else if key / 8 == 6 {
      var s := SetText(data, d.paymentURL);
      r := if s.None? then None else Some(r0.(d := d.(paymentURL := s.value)));
    } else if key / 8 == 7 {
      var s := SetText(data, d.merchantData);
      r := if s.None? then None else Some(r0.(d := d.(merchantData := s.value)));
    } else {
      var u := StoreUnknown(room, d.unknown, key, i, data);
      r := if u.None? then None else Some(r0.(d := d.(unknown := u.value)));
    }
  }

  /** `BRPaymentProtocolDetailsParse`, likewise. */
  method ParseDetails(room: nat, buf: seq<Byte>) returns (d: Option<Details>)
    requires |buf| < UINT64
    ensures d == ParsedDetails(room, buf)
  {
    hide FieldAt, Apply;
    var r, off: nat, count: nat := EMPTY, 0, |buf|;
    while off < |buf|
      invariant Turns(|buf|, FieldStep(Whole(buf), DetailsEffect(room)), off, r, count)
             == Turns(|buf|, FieldStep(Whole(buf), DetailsEffect(room)), 0, EMPTY, |buf|)
      decreases count
    {
      if count == 0 {
        return None;
      }
      var t := ReadFieldAt(Whole(buf), off);
      if t.None? {
        return None;
      }
      var s := TakeField(room, r, t.value.key, t.value.i, t.value.data);
      if s.None? {
        return None;
      }
      r, off, count := s.value, t.value.off, count - 1;
    }
    if r.network.None? {
      d := Some(r.d.(network := MAIN, networkDefaulted := true));
    } else {
      d := Some(r.d.(network := r.network.value));
    }
  }
}

/** Reading payment details back from their bytes, bitcoin/BRPaymentProtocol.c. */
module PaymentRoundTrip {
  import opened Wrappers
  import opened Bytes
  import opened ProtoBuf
  import opened FieldLoops
  import opened UnknownFields
  import opened PaymentProtocol

  // ----- the bytes as a list of fields

  function IntIf(defaulted: bool, key: nat, i: nat): seq<Wire> {
    if defaulted then [] else [IntWire(key, i)]
  }

  function TextIf(key: nat, s: Option<seq<Byte>>): seq<Wire> {
    match s case None => [] case Some(v) => [BytesWire(key, v)]
  }

  /** The fields of an output, the unknown ones last. */
  function OutputFields(o: Output, unknown: seq<Wire>): seq<Wire> {
    IntIf(o.amountDefaulted, 1, o.amount) + [BytesWire(2, o.script)] + unknown
  }

  function OutputsFields(s: seq<Output>): seq<Wire> {
    if s == [] then [] else OutputsFields(s[..|s| - 1]) + [BytesWire(2, OutputBytes(s[|s| - 1]))]
  }

  function NetworkFields(d: Details): seq<Wire> {
    if d.networkDefaulted then [] else [BytesWire(1, d.network)]
  }

  function DetailsFields(d: Details, unknown: seq<Wire>): seq<Wire> {
    NetworkFields(d) + OutputsFields(d.outputs)
    + IntIf(d.timeDefaulted, 3, d.time) + IntIf(d.expiresDefaulted, 4, d.expires)
    + TextIf(5, d.memo) + TextIf(6, d.paymentURL) + TextIf(7, d.merchantData) + unknown
  }

  /** Unknown fields as they are kept: their numbers are above `known`, or zero, and each fits its copy. */
  predicate AreKept(room: nat, known: nat, unknown: seq<Wire>) {
    forall k :: 0 <= k < |unknown| ==>
      IsWire(unknown[k]) && IsStorable(room, unknown[k]) && (unknown[k].key / 8 == 0 || unknown[k].key / 8 > known)
  }

  predicate IsCString(s: seq<Byte>) {
    forall k :: 0 <= k < |s| ==> s[k] != 0
  }

  /** A 64-bit amount, zero if left out, and unknown fields as they are kept. */
  predicate IsWritable(room: nat, o: Output, unknown: seq<Wire>) {
    && o.amount < UINT64 && (o.amountDefaulted ==> o.amount == 0)
    && AreKept(room, 2, unknown) && o.unknown == Encoded(unknown)
  }

  /** Strings without zeros, 64-bit values, left-out fields at their defaults, and unknown fields as they are
      kept: `unknown` those of the details, `outputs` those of the outputs. */
  predicate IsWritableDetails(room: nat, d: Details, outputs: seq<seq<Wire>>, unknown: seq<Wire>) {
    && |DetailsBytes(d)| < UINT64
    && IsCString(d.network) && (d.networkDefaulted ==> d.network == MAIN)
    && |outputs| == |d.outputs| && (forall k :: 0 <= k < |outputs| ==> IsWritable(room, d.outputs[k], outputs[k]))
    && d.time < UINT64 && (d.timeDefaulted ==> d.time == 0)
    && d.expires < UINT64 && (d.expiresDefaulted ==> d.expires == 0)
    && (d.memo.Some? ==> IsCString(d.memo.value)) && (d.paymentURL.Some? ==> IsCString(d.paymentURL.value))
    && AreKept(room, 7, unknown) && d.unknown == Encoded(unknown)
  }

  lemma {:induction false} WholeString(s: seq<Byte>)
    requires IsCString(s)
    ensures CString(s) == s
  {
    if s != [] {
      WholeString(s[1..]);
    }
  }

  lemma SingleFields(key: nat, i: nat, data: seq<Byte>)
    ensures Encoded([IntWire(key, i)]) == IntField(key, i) && Encoded([BytesWire(key, data)]) == BytesField(key, data)
  {
    hide VarInt;
    EncodedOne(IntWire(key, i));
    EncodedOne(BytesWire(key, data));
  }

  lemma OutputIsEncoded(o: Output, unknown: seq<Wire>)
    requires o.unknown == Encoded(unknown)
    ensures OutputBytes(o) == Encoded(OutputFields(o, unknown))
  {
    hide Encoded, IntField, BytesField;
    var a := IntIf(o.amountDefaulted, 1, o.amount);
    SingleFields(1, o.amount, []);
    SingleFields(2, 0, o.script);
    EncodedAppend(a, [BytesWire(2, o.script)]);
    EncodedAppend(a + [BytesWire(2, o.script)], unknown);
    WiresNotEmpty([]);
  }

  lemma {:induction false} OutputsAreEncoded(s: seq<Output>)
    ensures OutputsBytes(s) == Encoded(OutputsFields(s))
  {
    hide Encoded, BytesField, OutputBytes;
    WiresNotEmpty([]);
    if s != [] {
      var n := |s| - 1;
      OutputsAreEncoded(s[..n]);
      SingleFields(2, 0, OutputBytes(s[n]));
      EncodedAppend(OutputsFields(s[..n]), [BytesWire(2, OutputBytes(s[n]))]);
    }
  }

  lemma PartsAreEncoded(d: Details)
    requires IsCString(d.network)
    requires (d.memo.Some? ==> IsCString(d.memo.value)) && (d.paymentURL.Some? ==> IsCString(d.paymentURL.value))
    ensures Encoded(NetworkFields(d)) == if d.networkDefaulted then [] else BytesField(1, CString(d.network))
    ensures Encoded(IntIf(d.timeDefaulted, 3, d.time)) == IntUnless(d.timeDefaulted, 3, d.time)
    ensures Encoded(IntIf(d.expiresDefaulted, 4, d.expires)) == IntUnless(d.expiresDefaulted, 4, d.expires)
    ensures Encoded(TextIf(5, d.memo)) == StringIf(5, d.memo)
    ensures Encoded(TextIf(6, d.paymentURL)) == StringIf(6, d.paymentURL)
    ensures Encoded(TextIf(7, d.merchantData)) == BytesIf(7, d.merchantData)
  {
    hide Encoded, IntField, BytesField, CString, IsCString;
    WiresNotEmpty([]);
    WholeString(d.network);
    SingleFields(1, 0, d.network);
    SingleFields(3, d.time, []);
    SingleFields(4, d.expires, []);
    if d.memo.Some? {
      WholeString(d.memo.value);
      SingleFields(5, 0, d.memo.value);
    }
    if d.paymentURL.Some? {
      WholeString(d.paymentURL.value);
      SingleFields(6, 0, d.paymentURL.value);
    }
    if d.merchantData.Some? {
      SingleFields(7, 0, d.merchantData.value);
    }
  }

  lemma SevenParts(a: seq<Wire>, b: seq<Wire>, c: seq<Wire>, d: seq<Wire>, e: seq<Wire>, f: seq<Wire>, g: seq<Wire>, h: seq<Wire>)
    ensures Encoded(a + b + c + d + e + f + g + h)
         == Encoded(a) + Encoded(b) + Encoded(c) + Encoded(d) + Encoded(e) + Encoded(f) + Encoded(g) + Encoded(h)
  {
    hide Encoded;
    EncodedAppend(a, b);
    EncodedAppend(a + b, c);
    EncodedAppend(a + b + c, d);
    EncodedAppend(a + b + c + d, e);
    EncodedAppend(a + b + c + d + e, f);
    EncodedAppend(a + b + c + d + e + f, g);
    EncodedAppend(a + b + c + d + e + f + g, h);
  }

  lemma DetailsAreEncoded(room: nat, d: Details, outputs: seq<seq<Wire>>, unknown: seq<Wire>)
    requires IsWritableDetails(room, d, outputs, unknown)
    ensures DetailsBytes(d) == Encoded(DetailsFields(d, unknown))
  {
    hide Encoded, BytesField, OutputsBytes, IntUnless, StringIf, BytesIf, CString, IsCString;
    hide OutputsFields, NetworkFields, IntIf, TextIf, IsWritable, AreKept;
    PartsAreEncoded(d);
    OutputsAreEncoded(d.outputs);
    SevenParts(NetworkFields(d), OutputsFields(d.outputs), IntIf(d.timeDefaulted, 3, d.time),
               IntIf(d.expiresDefaulted, 4, d.expires), TextIf(5, d.memo), TextIf(6, d.paymentURL),
               TextIf(7, d.merchantData), unknown);
  }

  // ----- an output

  lemma {:induction false} OutputKeeps(room: nat, len: nat, o: Draft, unknown: seq<Wire>)
    requires AreKept(room, 2, unknown) && o.unknown == [] && |Encoded(unknown)| < UINT64
    ensures Fold(OutputEffect(room), len, o, unknown) == Some(o.(unknown := Encoded(Rearranged(unknown))))
    decreases |unknown|
  {
    hide Encoded, Keep, IsStorable, IsWire, Copied, With, Fold;
    WiresNotEmpty([]);
    if unknown == [] {
      FoldOne(OutputEffect(room), len, o, IntWire(0, 0));
    } else {
      var n := |unknown| - 1;
      var w := unknown[n];
      assert unknown == unknown[..n] + [w];
      EncodedAppend(unknown[..n], [w]);
      OutputKeeps(room, len, o, unknown[..n]);
      RearrangedWires(unknown[..n]);
      KeepEncoded(room, Rearranged(unknown[..n]), w, len);
      FoldAppend(OutputEffect(room), len, o, unknown[..n], [w]);
      FoldOne(OutputEffect(room), len, o.(unknown := Encoded(Rearranged(unknown[..n]))), w);
    }
  }

  lemma OutputFieldsAreWires(room: nat, o: Output, unknown: seq<Wire>)
    requires IsWritable(room, o, unknown) && |OutputBytes(o)| < UINT64
    ensures AreWires(OutputFields(o, unknown)) && |Encoded(unknown)| < UINT64
  {
    hide Encoded, IntField, VarInt, IsStorable;
  }

  /** The known fields of an output. */
  lemma OutputKnown(room: nat, len: nat, o: Output)
    requires o.amountDefaulted ==> o.amount == 0
    ensures Fold(OutputEffect(room), len, EMPTY_OUTPUT, IntIf(o.amountDefaulted, 1, o.amount) + [BytesWire(2, o.script)])
         == Some(Draft(o.amount, o.amountDefaulted, Some(o.script), []))
  {
    hide Fold, Keep;
    var effect := OutputEffect(room);
    var start := Draft(o.amount, o.amountDefaulted, None, []);
    FoldAppend(effect, len, EMPTY_OUTPUT, IntIf(o.amountDefaulted, 1, o.amount), [BytesWire(2, o.script)]);
    FoldOne(effect, len, EMPTY_OUTPUT, IntWire(1, o.amount));
    FoldOne(effect, len, start, BytesWire(2, o.script));
  }

  /** An output reads back with its amount, flag and script, and its unknown fields as if stored one after
      the other. */
  lemma OutputRoundTrip(room: nat, o: Output, unknown: seq<Wire>)
    requires IsWritable(room, o, unknown) && |OutputBytes(o)| < UINT64
    ensures ParsedOutput(room, Whole(OutputBytes(o)))
         == Some(Draft(o.amount, o.amountDefaulted, Some(o.script), Encoded(Rearranged(unknown))))
  {
    OutputFieldsAreWires(room, o, unknown);
    hide Encoded, OutputBytes, Fold, FieldsResult, AreKept, AreWires, OutputEffect, IntIf;
    var effect, len := OutputEffect(room), |OutputBytes(o)|;
    OutputIsEncoded(o, unknown);
    FieldsFold(effect, EMPTY_OUTPUT, OutputFields(o, unknown));
    FoldAppend(effect, len, EMPTY_OUTPUT, IntIf(o.amountDefaulted, 1, o.amount) + [BytesWire(2, o.script)], unknown);
    OutputKnown(room, len, o);
    OutputKeeps(room, len, Draft(o.amount, o.amountDefaulted, Some(o.script), []), unknown);
  }

  // ----- the details

  /** An output after its unknown fields were stored one after the other. */
  function RereadOutput(o: Output, unknown: seq<Wire>): Output {
    o.(unknown := Encoded(Rearranged(unknown)))
  }

  function RereadOutputs(s: seq<Output>, unknown: seq<seq<Wire>>): seq<Output>
    requires |unknown| == |s|
  {
    seq(|s|, k requires 0 <= k < |s| => RereadOutput(s[k], unknown[k]))
  }

  /** The details that come back. */
  function Reread(d: Details, outputs: seq<seq<Wire>>, unknown: seq<Wire>): Details
    requires |outputs| == |d.outputs|
  {
    d.(outputs := RereadOutputs(d.outputs, outputs), unknown := Encoded(Rearranged(unknown)))
  }

  lemma {:induction false} OutputWithin(s: seq<Output>, k: nat)
    requires k < |s|
    ensures |OutputBytes(s[k])| <= |OutputsBytes(s)|
    decreases |s|
  {
    hide OutputBytes, VarInt;
    if k < |s| - 1 {
      OutputWithin(s[..|s| - 1], k);
    }
  }

  lemma OutputApplied(room: nat, r: Reading, o: Output, unknown: seq<Wire>)
    requires IsWritable(room, o, unknown) && |OutputBytes(o)| < UINT64
    ensures Apply(room, r, 2 * 8 + LENDELIM, 0, Whole(OutputBytes(o)))
         == Some(r.(d := r.d.(outputs := r.d.outputs + [RereadOutput(o, unknown)])))
  {
    hide ParsedOutput, OutputBytes, IsWritable;
    OutputRoundTrip(room, o, unknown);
  }

  lemma {:induction false} DetailsOutputs(room: nat, len: nat, r: Reading, s: seq<Output>, unknown: seq<seq<Wire>>)
    requires |unknown| == |s| && |OutputsBytes(s)| < UINT64
    requires forall k :: 0 <= k < |s| ==> IsWritable(room, s[k], unknown[k])
    ensures Fold(DetailsEffect(room), len, r, OutputsFields(s))
         == Some(r.(d := r.d.(outputs := r.d.outputs + RereadOutputs(s, unknown))))
    decreases |s|
  {
    hide Fold, OutputBytes, IsWritable, Apply, RereadOutput, BytesField;
    var effect := DetailsEffect(room);
    if s == [] {
      FoldOne(effect, len, r, IntWire(0, 0));
      assert r.d.outputs + RereadOutputs(s, unknown) == r.d.outputs;
    } else {
      var n := |s| - 1;
      DetailsOutputs(room, len, r, s[..n], unknown[..n]);
      var mid := r.(d := r.d.(outputs := r.d.outputs + RereadOutputs(s[..n], unknown[..n])));
      OutputWithin(s, n);
      OutputApplied(room, mid, s[n], unknown[n]);
      FoldAppend(effect, len, r, OutputsFields(s[..n]), [BytesWire(2, OutputBytes(s[n]))]);
      FoldOne(effect, len, mid, BytesWire(2, OutputBytes(s[n])));
      assert RereadOutputs(s[..n], unknown[..n]) + [RereadOutput(s[n], unknown[n])] == RereadOutputs(s, unknown);
      assert mid.d.outputs + [RereadOutput(s[n], unknown[n])] == r.d.outputs + RereadOutputs(s, unknown);
    }
  }

  lemma {:induction false} DetailsKeep(room: nat, len: nat, r: Reading, unknown: seq<Wire>)
    requires AreKept(room, 7, unknown) && r.d.unknown == [] && |Encoded(unknown)| < UINT64
    ensures Fold(DetailsEffect(room), len, r, unknown) == Some(r.(d := r.d.(unknown := Encoded(Rearranged(unknown)))))
    decreases |unknown|
  {
    hide Encoded, Keep, IsStorable, IsWire, Text, ParsedOutput, With, Fold;
    WiresNotEmpty([]);
    if unknown == [] {
      FoldOne(DetailsEffect(room), len, r, IntWire(0, 0));
    } else {
      var n := |unknown| - 1;
      var w := unknown[n];
      assert unknown == unknown[..n] + [w];
      EncodedAppend(unknown[..n], [w]);
      DetailsKeep(room, len, r, unknown[..n]);
      RearrangedWires(unknown[..n]);
      KeepEncoded(room, Rearranged(unknown[..n]), w, len);
      FoldAppend(DetailsEffect(room), len, r, unknown[..n], [w]);
      FoldOne(DetailsEffect(room), len, r.(d := r.d.(unknown := Encoded(Rearranged(unknown[..n])))), w);
    }
  }

  /** The part of the details that has been read after each kind of field, in the order written. */
  function Upto(d: Details, outputs: seq<Output>, n: nat): Reading {
    Reading(if d.networkDefaulted then None else Some(d.network),
            Details([], false, if n >= 1 then outputs else [],
                    if n >= 2 then d.time else 0, if n >= 2 then d.timeDefaulted else true,
                    if n >= 3 then d.expires else 0, if n >= 3 then d.expiresDefaulted else true,
                    if n >= 4 then d.memo else None, if n >= 5 then d.paymentURL else None,
                    if n >= 6 then d.merchantData else None, []))
  }

  lemma SinglesRead(room: nat, len: nat, d: Details, outputs: seq<Output>)
    requires (d.timeDefaulted ==> d.time == 0) && (d.expiresDefaulted ==> d.expires == 0)
    ensures Fold(DetailsEffect(room), len, EMPTY, NetworkFields(d)) == Some(Upto(d, outputs, 0))
    ensures Fold(DetailsEffect(room), len, Upto(d, outputs, 1), IntIf(d.timeDefaulted, 3, d.time)) == Some(Upto(d, outputs, 2))
    ensures Fold(DetailsEffect(room), len, Upto(d, outputs, 2), IntIf(d.expiresDefaulted, 4, d.expires)) == Some(Upto(d, outputs, 3))
  {
    hide Fold, ParsedOutput, Keep;
    var effect := DetailsEffect(room);
    FoldOne(effect, len, EMPTY, BytesWire(1, d.network));
    FoldOne(effect, len, Upto(d, outputs, 1), IntWire(3, d.time));
    FoldOne(effect, len, Upto(d, outputs, 2), IntWire(4, d.expires));
  }

  lemma TextsRead(room: nat, len: nat, d: Details, outputs: seq<Output>)
    ensures Fold(DetailsEffect(room), len, Upto(d, outputs, 3), TextIf(5, d.memo)) == Some(Upto(d, outputs, 4))
    ensures Fold(DetailsEffect(room), len, Upto(d, outputs, 4), TextIf(6, d.paymentURL)) == Some(Upto(d, outputs, 5))
    ensures Fold(DetailsEffect(room), len, Upto(d, outputs, 5), TextIf(7, d.merchantData)) == Some(Upto(d, outputs, 6))
  {
    hide Fold, ParsedOutput, Keep;
    var effect := DetailsEffect(room);
    FoldOne(effect, len, Upto(d, outputs, 3), BytesWire(5, if d.memo.Some? then d.memo.value else []));
    FoldOne(effect, len, Upto(d, outputs, 4), BytesWire(6, if d.paymentURL.Some? then d.paymentURL.value else []));
    FoldOne(effect, len, Upto(d, outputs, 5), BytesWire(7, if d.merchantData.Some? then d.merchantData.value else []));
  }

  lemma FieldsRead(room: nat, len: nat, d: Details, outputs: seq<seq<Wire>>, unknown: seq<Wire>)
    requires IsWritableDetails(room, d, outputs, unknown)
    ensures Fold(DetailsEffect(room), len, EMPTY, DetailsFields(d, unknown))
         == (var r := Upto(d, RereadOutputs(d.outputs, outputs), 6);
             Some(r.(d := r.d.(unknown := Encoded(Rearranged(unknown))))))
  {
    LengthsWithin(d);
    hide Fold, OutputsBytes, DetailsBytes, Encoded, AreKept, IsWritable, DetailsEffect, NetworkFields, IntIf, TextIf;
    var effect := DetailsEffect(room);
    var os := RereadOutputs(d.outputs, outputs);
    SinglesRead(room, len, d, os);
    TextsRead(room, len, d, os);
    DetailsOutputs(room, len, Upto(d, os, 0), d.outputs, outputs);
    assert [] + os == os;
    DetailsKeep(room, len, Upto(d, os, 6), unknown);
    hide RereadOutputs, OutputsFields, IsCString, IsWritableDetails;
    var a := NetworkFields(d) + OutputsFields(d.outputs);
    var b := a + IntIf(d.timeDefaulted, 3, d.time);
    var c := b + IntIf(d.expiresDefaulted, 4, d.expires);
    var e := c + TextIf(5, d.memo);
    var f := e + TextIf(6, d.paymentURL);
    FoldAppend(effect, len, EMPTY, NetworkFields(d), OutputsFields(d.outputs));
    FoldAppend(effect, len, EMPTY, a, IntIf(d.timeDefaulted, 3, d.time));
    FoldAppend(effect, len, EMPTY, b, IntIf(d.expiresDefaulted, 4, d.expires));
    FoldAppend(effect, len, EMPTY, c, TextIf(5, d.memo));
    FoldAppend(effect, len, EMPTY, e, TextIf(6, d.paymentURL));
    FoldAppend(effect, len, EMPTY, f, TextIf(7, d.merchantData));
    FoldAppend(effect, len, EMPTY, f + TextIf(7, d.merchantData), unknown);
  }

  lemma LengthsWithin(d: Details)
    ensures |OutputsBytes(d.outputs)| <= |DetailsBytes(d)| && |d.unknown| <= |DetailsBytes(d)|
  {
    hide OutputsBytes, IntField, BytesField, CString;
  }

  /** All that a field needs besides data of a 64-bit length. */
  predicate IsShaped(w: Wire) {
    IsWire(if w.data.Some? then w.(data := Some([])) else w)
  }

  predicate AreShaped(s: seq<Wire>) { forall k :: 0 <= k < |s| ==> IsShaped(s[k]) }

  lemma ShapedAppend(a: seq<Wire>, b: seq<Wire>)
    requires AreShaped(a) && AreShaped(b)
    ensures AreShaped(a + b)
  {
    hide IsShaped;
  }

  lemma DataWithin(s: seq<Wire>, k: nat)
    requires k < |s| && s[k].data.Some?
    ensures |s[k].data.value| <= |Encoded(s)|
  {
    hide Encoded, WireHead;
    PlaceStep(s, k);
  }

  lemma {:induction false} OutputsShaped(s: seq<Output>)
    ensures AreShaped(OutputsFields(s))
  {
    hide OutputBytes;
    if s != [] {
      OutputsShaped(s[..|s| - 1]);
      ShapedAppend(OutputsFields(s[..|s| - 1]), [BytesWire(2, OutputBytes(s[|s| - 1]))]);
    }
  }

  lemma KeptShaped(room: nat, unknown: seq<Wire>)
    requires AreKept(room, 7, unknown)
    ensures AreShaped(unknown)
  {
    hide IsStorable;
  }

  lemma SinglesShaped(d: Details)
    requires d.time < UINT64 && d.expires < UINT64
    ensures AreShaped(NetworkFields(d)) && AreShaped(IntIf(d.timeDefaulted, 3, d.time))
    ensures AreShaped(IntIf(d.expiresDefaulted, 4, d.expires)) && AreShaped(TextIf(5, d.memo))
    ensures AreShaped(TextIf(6, d.paymentURL)) && AreShaped(TextIf(7, d.merchantData))
  {
  }

  lemma DetailsShaped(room: nat, d: Details, unknown: seq<Wire>)
    requires d.time < UINT64 && d.expires < UINT64 && AreKept(room, 7, unknown)
    ensures AreShaped(DetailsFields(d, unknown))
  {
    OutputsShaped(d.outputs);
    KeptShaped(room, unknown);
    SinglesShaped(d);
    hide AreShaped, AreKept, NetworkFields, OutputsFields, IntIf, TextIf;
    var a := NetworkFields(d) + OutputsFields(d.outputs);
    var b := a + IntIf(d.timeDefaulted, 3, d.time);
    var c := b + IntIf(d.expiresDefaulted, 4, d.expires);
    var e := c + TextIf(5, d.memo);
    var f := e + TextIf(6, d.paymentURL);
    ShapedAppend(NetworkFields(d), OutputsFields(d.outputs));
    ShapedAppend(a, IntIf(d.timeDefaulted, 3, d.time));
    ShapedAppend(b, IntIf(d.expiresDefaulted, 4, d.expires));
    ShapedAppend(c, TextIf(5, d.memo));
    ShapedAppend(e, TextIf(6, d.paymentURL));
    ShapedAppend(f, TextIf(7, d.merchantData));
    ShapedAppend(f + TextIf(7, d.merchantData), unknown);
  }

  lemma ShapedWires(s: seq<Wire>)
    requires AreShaped(s) && |Encoded(s)| < UINT64
    ensures AreWires(s)
  {
    hide Encoded;
    forall k | 0 <= k < |s| ensures IsWire(s[k]) {
      assert IsShaped(s[k]);
      if s[k].data.Some? {
        DataWithin(s, k);
      }
    }
  }

  lemma DetailsFieldsAreWires(room: nat, d: Details, outputs: seq<seq<Wire>>, unknown: seq<Wire>)
    requires IsWritableDetails(room, d, outputs, unknown)
    ensures AreWires(DetailsFields(d, unknown))
  {
    hide Encoded, DetailsBytes, DetailsFields, AreKept, AreShaped, AreWires;
    DetailsAreEncoded(room, d, outputs, unknown);
    DetailsShaped(room, d, unknown);
    ShapedWires(DetailsFields(d, unknown));
  }

  /** Parsing what was serialised returns every field, nested output and flag, and the unknown fields as if
      stored one after the other. */
  lemma RoundTrip(room: nat, d: Details, outputs: seq<seq<Wire>>, unknown: seq<Wire>)
    requires IsWritableDetails(room, d, outputs, unknown)
    ensures ParsedDetails(room, DetailsBytes(d)) == Some(Reread(d, outputs, unknown))
  {
    DetailsFieldsAreWires(room, d, outputs, unknown);
    DetailsAreEncoded(room, d, outputs, unknown);
    hide Fold, FieldsResult, Encoded, DetailsBytes, DetailsFields, AreKept, IsWritable, AreWires;
    FieldsFold(DetailsEffect(room), EMPTY, DetailsFields(d, unknown));
    FieldsRead(room, |DetailsBytes(d)|, d, outputs, unknown);
  }

  /** What comes back is what was written if and only if no part had more than one unknown field. */
  lemma RoundTripIsExact(room: nat, d: Details, outputs: seq<seq<Wire>>, unknown: seq<Wire>)
    requires IsWritableDetails(room, d, outputs, unknown)
    requires KeysDiffer(unknown) && forall k :: 0 <= k < |outputs| ==> KeysDiffer(outputs[k])
    ensures ParsedDetails(room, DetailsBytes(d)) == Some(d)
       <==> |unknown| <= 1 && forall k :: 0 <= k < |outputs| ==> |outputs[k]| <= 1
  {
    LengthsWithin(d);
    RoundTrip(room, d, outputs, unknown);
    SameUnknown(unknown);
    hide Encoded, DetailsBytes, ParsedDetails, KeysDiffer, Rearranged, IsStorable, IsWire, OutputsBytes, IsWritable, RereadOutputs;
    SameOutputs(room, d.outputs, outputs);
  }

  lemma SameOutputs(room: nat, s: seq<Output>, unknown: seq<seq<Wire>>)
    requires |unknown| == |s| && |OutputsBytes(s)| < UINT64
    requires forall k :: 0 <= k < |s| ==> IsWritable(room, s[k], unknown[k]) && KeysDiffer(unknown[k])
    ensures RereadOutputs(s, unknown) == s <==> forall k :: 0 <= k < |unknown| ==> |unknown[k]| <= 1
  {
    hide Encoded, OutputBytes, OutputsBytes, KeysDiffer, RereadOutput;
    var os := RereadOutputs(s, unknown);
    forall k | 0 <= k < |unknown| ensures os[k] == s[k] <==> |unknown[k]| <= 1 {
      OutputWithin(s, k);
      SameOutput(room, s[k], unknown[k]);
    }
    assert os == s <==> forall k :: 0 <= k < |s| ==> os[k] == s[k];
  }

  lemma SameOutput(room: nat, o: Output, unknown: seq<Wire>)
    requires IsWritable(room, o, unknown) && KeysDiffer(unknown) && |OutputBytes(o)| < UINT64
    ensures RereadOutput(o, unknown) == o <==> |unknown| <= 1
  {
    hide OutputBytes, Encoded, Rearranged, KeysDiffer;
    UnknownWithin(o);
    SameUnknown(unknown);
  }

  lemma UnknownWithin(o: Output)
    ensures |o.unknown| <= |OutputBytes(o)|
  {
    hide IntField, BytesField;
  }

  lemma SameUnknown(unknown: seq<Wire>)
    requires AreWires(unknown) && KeysDiffer(unknown) && |Encoded(unknown)| < UINT64
    ensures Encoded(Rearranged(unknown)) == Encoded(unknown) <==> |unknown| <= 1
  {
    RearrangedOrder(unknown);
    RearrangedWires(unknown);
    if Encoded(Rearranged(unknown)) == Encoded(unknown) {
      EncodedInjective(Rearranged(unknown), unknown);
    }
  }

  /** In particular details made from given values read back as those values. */
  lemma NewRoundTrip(room: nat, network: Option<seq<Byte>>, outputs: seq<(nat, seq<Byte>)>, time: nat, expires: nat,
                     memo: Option<seq<Byte>>, paymentURL: Option<seq<Byte>>, merchantData: Option<seq<Byte>>)
    requires var d := NewDetails(network, outputs, time, expires, memo, paymentURL, merchantData);
             IsWritableDetails(room, d, seq(|outputs|, k => []), [])
    ensures var d := NewDetails(network, outputs, time, expires, memo, paymentURL, merchantData);
            ParsedDetails(room, DetailsBytes(d)) == Some(d) && (network.None? ==> d.network == MAIN)
  {
    hide ParsedDetails, DetailsBytes, IsWritableDetails;
    RoundTripIsExact(room, NewDetails(network, outputs, time, expires, memo, paymentURL, merchantData), seq(|outputs|, k => []), []);
  }
}

/** The nested loops that parse payment details in bitcoin/BRPaymentProtocol.c: when exactly they come to an
    end, and buffers on which they do not. */
module PaymentLoops {
  import opened Wrappers
  import opened Bytes
  import opened ProtoBuf
  import opened OffsetLoops
  import opened FieldLoops
  import opened UnknownFields
  import opened PaymentProtocol

  // ----- for every buffer

  /** The details loop after at most `n` fields. */
  function DetailsTurns(room: nat, buf: seq<Byte>, n: nat): Run<Reading> {
    Turns(|buf|, FieldStep(Whole(buf), DetailsEffect(room)), 0, EMPTY, n)
  }

  /** `BRPaymentProtocolDetailsParse` returns. */
  ghost predicate Ends(room: nat, buf: seq<Byte>) {
    exists n: nat :: DetailsTurns(room, buf, n).Returned?
  }

  /** The output loop after at most `n` fields. */
  function OutputTurns(room: nat, buf: Buffer, n: nat): Run<Draft> {
    Turns(buf.len, FieldStep(buf, OutputEffect(room)), 0, EMPTY_OUTPUT, n)
  }

  /** `_BRPaymentProtocolOutputParse` returns. */
  ghost predicate OutputEnds(room: nat, buf: Buffer) {
    exists n: nat :: OutputTurns(room, buf, n).Returned?
  }

  /** For every buffer and every length promised: the output loop comes to an end if and only if it does so
      within as many fields as the length. */
  lemma OutputEndsExactly(room: nat, buf: Buffer)
    ensures OutputEnds(room, buf) <==> ParsedOutput(room, buf).Some?
  {
    if OutputEnds(room, buf) {
      var n: nat :| OutputTurns(room, buf, n).Returned?;
      FieldsDecided(buf, OutputEffect(room), EMPTY_OUTPUT, OutputTurns(room, buf, n).value);
    }
    if ParsedOutput(room, buf).Some? {
      assert OutputTurns(room, buf, buf.len).Returned?;
    }
  }

  /** For every buffer, unknown fields, wrapping lengths and all: the details loop comes to an end if and only
      if it does so within as many fields as the buffer has bytes, and then with the details of the
      specification. */
  lemma EndsExactly(room: nat, buf: seq<Byte>)
    ensures Ends(room, buf) <==> ParsedDetails(room, buf).Some?
    ensures forall n: nat :: DetailsTurns(room, buf, n).Returned? ==>
              ParsedDetails(room, buf) == Some(Finished(DetailsTurns(room, buf, n).value))
  {
    forall n: nat | DetailsTurns(room, buf, n).Returned?
      ensures ParsedDetails(room, buf) == Some(Finished(DetailsTurns(room, buf, n).value))
    {
      FieldsDecided(Whole(buf), DetailsEffect(room), EMPTY, DetailsTurns(room, buf, n).value);
    }
    if ParsedDetails(room, buf).Some? {
      assert DetailsTurns(room, buf, |buf|).Returned?;
    }
  }

  // ----- without a buffer

  lemma NullField(len: nat, off: nat)
    requires off < len < UINT64
    ensures FieldAt(Buffer(None, len), off) == Some(Taken(0, 0, Buffer(None, len), off))
  {
  }

  /** The copy of the field that NULL seems to hold. */
  lemma NullKept(room: nat, len: nat)
    ensures Keep(room, [], 0, 0, Buffer(None, len)) == Some([0, 0])
    ensures Keep(room, [0, 0], 0, 0, Buffer(None, len)) == Some([0, 0])
  {
    var w := IntWire(0, 0);
    assert VarInt(0) == [0];
    assert WireBytes(w) == [0, 0];
    hide WireBytes, Keep, VarInt;
    EncodedOne(w);
    WiresNotEmpty([]);
    KeepEncoded(room, [], w, len);
    KeepEncoded(room, [w], w, len);
    assert With([], w) == [w] == With([w], w);
  }

  lemma NullTurn(room: nat, len: nat, o: Draft)
    requires 0 < len < UINT64 && (o.unknown == [] || o.unknown == [0, 0])
    ensures FieldStep(Buffer(None, len), OutputEffect(room))(0, o) == Some((0, o.(unknown := [0, 0])))
  {
    NullField(len, 0);
    hide FieldAt;
    assert OutputEffect(room)(o, 0, 0, Buffer(None, len)) == Some(o.(unknown := [0, 0])) by {
      NullKept(room, len);
      hide Keep;
    }
    hide ApplyToOutput;
  }

  /** On NULL with a length the output loop reads key 0 again and again and never ends. */
  lemma NullNeverEnds(room: nat, len: nat, n: nat)
    requires 0 < len < UINT64
    ensures OutputTurns(room, Buffer(None, len), n) == Running
  {
    var inv := (o: Draft) => o.unknown == [] || o.unknown == [0, 0];
    forall o: Draft | inv(o)
      ensures FieldStep(Buffer(None, len), OutputEffect(room))(0, o) == Some((0, o.(unknown := [0, 0])))
    {
      NullTurn(room, len, o);
    }
    hide FieldStep, OutputEffect;
    Circles(len, FieldStep(Buffer(None, len), OutputEffect(room)), 0, EMPTY_OUTPUT, inv, n);
  }

  lemma NullIsLost(room: nat, len: nat)
    requires 0 < len < UINT64
    ensures ParsedOutput(room, Buffer(None, len)).None?
  {
    NullNeverEnds(room, len, len);
  }

  // ----- buffers on which nothing wraps

  function WireOf(t: Taken): Wire { Wire(t.key, t.i, t.data.mem) }

  /** A field of a known number, or one that its copy takes as it is. */
  predicate IsTame(room: nat, known: nat, t: Taken) {
    1 <= t.key / 8 <= known || (IsWire(WireOf(t)) && IsStorable(room, WireOf(t)))
  }

  /** From `off` on no length wraps and no integer is longer than ten bytes, every unknown field fits its copy,
      and so within the outputs. */
  predicate IsPlain(room: nat, known: nat, b: Buffer, off: nat)
    requires IsBuffer(b)
    decreases known, b.len - off
  {
    off < b.len ==>
      && FieldAt(b, off).Some?
      && var t := FieldAt(b, off).value;
         && t.off >= off + 1 + (if t.data.mem.Some? then t.data.len else 0)
         && (t.data.mem.Some? ==> IsWhole(t.data))
         && IsTame(room, known, t)
         && (known > 2 && t.key / 8 == 2 && t.data.mem.Some? ==> IsPlain(room, 2, t.data, 0))
         && IsPlain(room, known, b, t.off)
  }

  /** From `off` on an outputs field without data comes up. */
  predicate IsBare(b: Buffer, off: nat)
    requires IsBuffer(b)
    decreases b.len - off
  {
    && off < b.len
    && FieldAt(b, off).Some?
    && var t := FieldAt(b, off).value;
       t.off > off && ((t.key / 8 == 2 && t.data.mem.None?) || IsBare(b, t.off))
  }

  /** Absent data have a positive length, and only data that are asked for one other than the buffer's. */
  lemma FieldData(b: Buffer, off: nat)
    requires IsBuffer(b) && b.mem.Some? && off < b.len && FieldAt(b, off).Some?
    ensures var t := FieldAt(b, off).value;
            && (t.data.mem.None? ==> t.data.len > 0)
            && (t.data.mem.Some? ==> |t.data.mem.value| <= b.len)
            && (t.key % 8 != LENDELIM ==> t.data == Buffer(None, b.len))
  {
    hide VarIntAt, FixedAt;
  }

  /** A copy that is taken as it is leaves an array of fields, ten times as long as what was read at most. */
  lemma TameKept(room: nat, b: Buffer, off: nat, s: seq<Wire>) returns (r: seq<Wire>)
    requires IsBuffer(b) && b.mem.Some? && off < b.len && 10 * b.len < UINT64 && FieldAt(b, off).Some?
    requires var t := FieldAt(b, off).value;
             && IsWire(WireOf(t)) && IsStorable(room, WireOf(t)) && (t.data.mem.Some? ==> IsWhole(t.data))
             && t.off >= off + 1 + (if t.data.mem.Some? then t.data.len else 0)
    requires AreWires(s) && |Encoded(s)| <= 10 * off
    ensures var t := FieldAt(b, off).value;
            Keep(room, Encoded(s), t.key, t.i, t.data) == Some(Encoded(r)) && AreWires(r) && |Encoded(r)| <= 10 * t.off
  {
    var t := FieldAt(b, off).value;
    FieldData(b, off);
    var w := WireOf(t);
    assert |WireBytes(w)| <= 10 + if t.data.mem.Some? then t.data.len else 0;
    assert DataOf(w, b.len) == t.data;
    hide FieldAt, Keep, With, WireBytes, WireHead, Encoded;
    r := With(s, w);
    KeepEncoded(room, s, w, b.len);
    WithWires(s, w);
  }

  lemma {:induction false} PlainOutputEnds(room: nat, b: Buffer, off: nat, o: Draft, s: seq<Wire>, n: nat)
    requires IsBuffer(b) && b.mem.Some? && 10 * b.len < UINT64 && off + n >= b.len && IsPlain(room, 2, b, off)
    requires o.unknown == Encoded(s) && AreWires(s) && |Encoded(s)| <= 10 * off
    ensures Turns(b.len, FieldStep(b, OutputEffect(room)), off, o, n).Returned?
    decreases n
  {
    hide FieldAt, Keep, Encoded, IsWire, IsStorable;
    if off < b.len {
      var t := FieldAt(b, off).value;
      if t.key / 8 == 1 {
        PlainOutputEnds(room, b, t.off, o.(amount := t.i, defaulted := false), s, n - 1);
      } else if t.key / 8 == 2 {
        PlainOutputEnds(room, b, t.off, o.(script := t.data.mem), s, n - 1);
      } else {
        var r := TameKept(room, b, off, s);
        PlainOutputEnds(room, b, t.off, o.(unknown := Encoded(r)), r, n - 1);
      }
    }
  }

  lemma PlainOutput(room: nat, b: Buffer)
    requires IsBuffer(b) && b.mem.Some? && 10 * b.len < UINT64 && IsPlain(room, 2, b, 0)
    ensures ParsedOutput(room, b).Some?
  {
    hide IsPlain;
    WiresNotEmpty([]);
    PlainOutputEnds(room, b, 0, EMPTY_OUTPUT, [], b.len);
  }

  /** What is known of the details while plain fields are read. */
  ghost predicate IsSteady(off: nat, r: Reading) {
    exists s :: r.d.unknown == Encoded(s) && AreWires(s) && |Encoded(s)| <= 10 * off
  }

  /** A plain field of the details comes back, unless it is an outputs field without data. */
  lemma PlainField(room: nat, b: Buffer, off: nat, r: Reading)
    requires IsBuffer(b) && b.mem.Some? && 10 * b.len < UINT64 && off < b.len && IsPlain(room, 7, b, off) && IsSteady(off, r)
    ensures var t := FieldAt(b, off).value;
            var q := Apply(room, r, t.key, t.i, t.data);
            && (q.None? <==> t.key / 8 == 2 && t.data.mem.None?)
            && (q.Some? ==> IsSteady(t.off, q.value))
  {
    hide FieldAt, Keep, Encoded, IsWire, IsStorable, ParsedOutput;
    var s :| r.d.unknown == Encoded(s) && AreWires(s) && |Encoded(s)| <= 10 * off;
    var t := FieldAt(b, off).value;
    FieldData(b, off);
    if t.key / 8 == 2 {
      if t.data.mem.Some? {
        PlainOutput(room, t.data);
      } else {
        NullIsLost(room, t.data.len);
      }
    } else if !(1 <= t.key / 8 <= 7) {
      var u := TameKept(room, b, off, s);
    }
  }

  lemma {:induction false} PlainEnds(room: nat, b: Buffer, off: nat, r: Reading, n: nat)
    requires IsBuffer(b) && b.mem.Some? && 10 * b.len < UINT64 && IsPlain(room, 7, b, off) && IsSteady(off, r)
    ensures !IsBare(b, off) && off + n >= b.len ==> Turns(b.len, FieldStep(b, DetailsEffect(room)), off, r, n).Returned?
    ensures IsBare(b, off) ==> !Turns(b.len, FieldStep(b, DetailsEffect(room)), off, r, n).Returned?
    decreases n
  {
    hide FieldAt, Apply, IsSteady;
    if off < b.len && n > 0 {
      var t := FieldAt(b, off).value;
      PlainField(room, b, off, r);
      var q := Apply(room, r, t.key, t.i, t.data);
      if q.Some? {
        PlainEnds(room, b, t.off, q.value, n - 1);
      }
    }
  }

  /** If nothing wraps and every unknown field fits its copy, parsing comes to an end if and only if no outputs
      field comes up without data. */
  lemma PlainEndsExactly(room: nat, buf: seq<Byte>)
    requires 10 * |buf| < UINT64 && IsPlain(room, 7, Whole(buf), 0)
    ensures Ends(room, buf) <==> !IsBare(Whole(buf), 0)
  {
    hide IsPlain, IsBare;
    WiresNotEmpty([]);
    assert EMPTY.d.unknown == Encoded([]) && AreWires([]);
    if IsBare(Whole(buf), 0) {
      forall n: nat ensures !DetailsTurns(room, buf, n).Returned? {
        PlainEnds(room, Whole(buf), 0, EMPTY, n);
      }
    } else {
      PlainEnds(room, Whole(buf), 0, EMPTY, |buf|);
      assert DetailsTurns(room, buf, |buf|).Returned?;
    }
  }

  // ----- lengths that wrap

  lemma VarIntStep(i: nat)
    ensures VarInt(i) == if i < 128 then [i] else [128 + i % 128] + VarInt(i / 128)
  {
  }

  lemma OneStep(i: nat, rest: seq<Byte>)
    requires i > 1 && VarInt(i - 1) == rest
    ensures VarInt(0x80 * i - 1) == [255] + rest
  {
    hide VarInt;
    VarIntStep(0x80 * i - 1);
  }

  /** One below a multiple of 2^28 the low four bytes have all their bits set. */
  lemma FourSteps(i: nat, rest: seq<Byte>)
    requires i > 1 && VarInt(i - 1) == rest
    ensures VarInt(0x1000_0000 * i - 1) == [255, 255, 255, 255] + rest
  {
    hide VarInt;
    OneStep(i, rest);
    OneStep(0x80 * i, [255] + rest);
    OneStep(0x4000 * i, [255] + ([255] + rest));
    OneStep(0x20_0000 * i, [255] + ([255] + ([255] + rest)));
    FourInFront(rest);
  }

  lemma FourInFront(rest: seq<Byte>)
    ensures [255] + ([255] + ([255] + ([255] + rest))) == [255, 255, 255, 255] + rest
  {
  }

  lemma TopVarInt(c: nat)
    requires 0 < c <= 128
    ensures VarInt(UINT64 - c) == [256 - c, 255, 255, 255, 255, 255, 255, 255, 255, 1]
  {
    VarIntStep(1);
    hide VarInt;
    FourSteps(2, [1]);
    FourSteps(0x2000_0000, [255, 255, 255, 255, 1]);
    VarIntStep(UINT64 - c);
  }

  /** A field of bytes of length 2^64 - 11 at the start of a buffer, whatever follows. */
  function Wrapping(number: nat, rest: seq<Byte>): seq<Byte>
    requires number < 16
  {
    [number * 8 + LENDELIM, 0xF5, 0xFF, 0xFF, 0xFF, 0xFF, 0xFF, 0xFF, 0xFF, 0xFF, 0x01] + rest
  }

  lemma WrappingSpells(number: nat, rest: seq<Byte>)
    requires number < 16
    ensures var key := number * 8 + LENDELIM;
            Spells(Wrapping(number, rest), 0, VarInt(key)) && |VarInt(key)| == 1
    ensures Spells(Wrapping(number, rest), 1, VarInt(UINT64 - 11)) && |VarInt(UINT64 - 11)| == 10
  {
    var key := number * 8 + LENDELIM;
    TopVarInt(11);
    VarIntStep(key);
    hide VarInt, Spells;
    var n := [0xF5, 0xFF, 0xFF, 0xFF, 0xFF, 0xFF, 0xFF, 0xFF, 0xFF, 0x01];
    assert Wrapping(number, rest) == [] + [key] + (n + rest);
    assert Wrapping(number, rest) == [key] + n + rest;
    SpellsInside([], [key], n + rest);
    SpellsInside([key], n, rest);
  }

  lemma WrappingData(number: nat, rest: seq<Byte>)
    requires number < 16 && |rest| + 11 < UINT64
    ensures DataAt(Whole(Wrapping(number, rest)), 11, UINT64 - 11) == Buffer(Some(rest), UINT64 - 11)
  {
    assert Wrapping(number, rest)[11..] == rest;
  }

  lemma WrappingField(number: nat, rest: seq<Byte>)
    requires number < 16 && |rest| + 11 < UINT64
    ensures FieldAt(Whole(Wrapping(number, rest)), 0)
         == Some(Taken(number * 8 + LENDELIM, 0, Buffer(Some(rest), UINT64 - 11), 0))
  {
    var buf := Wrapping(number, rest);
    assert |buf| == 11 + |rest|;
    hide VarInt, Spells, VarIntAt, Wrapping, DataAt;
    WrappingSpells(number, rest);
    WrappingData(number, rest);
    VarIntReads(buf, 0, number * 8 + LENDELIM);
    VarIntReads(buf, 1, UINT64 - 11);
  }

  lemma TimeApplied(room: nat, number: nat, r: Reading, data: Buffer)
    requires 3 <= number <= 4
    ensures Apply(room, r, number * 8 + LENDELIM, 0, data).Some?
  {
    hide ParsedOutput, Keep, Text;
    assert (number * 8 + LENDELIM) / 8 == number;
  }

  lemma TimeTurn(room: nat, number: nat, rest: seq<Byte>, r: Reading)
    requires 3 <= number <= 4 && |rest| + 11 < UINT64
    ensures var step := FieldStep(Whole(Wrapping(number, rest)), DetailsEffect(room));
            step(0, r).Some? && step(0, r).value.0 == 0
  {
    WrappingField(number, rest);
    var buf := Wrapping(number, rest);
    TimeApplied(room, number, r, Buffer(Some(rest), UINT64 - 11));
    hide FieldAt, Apply, Wrapping;
    assert IsBuffer(Whole(buf)) && 0 < |buf|;
    assert FieldTurn(Whole(buf), DetailsEffect(room), 0, r).Some?;
  }

  /** A time or an expiry of that length leads back to the start for ever, without any outputs field. */
  lemma WrappedTimeNeverEnds(room: nat, number: nat, rest: seq<Byte>, n: nat)
    requires 3 <= number <= 4 && |rest| + 11 < UINT64
    ensures DetailsTurns(room, Wrapping(number, rest), n) == Running
  {
    var buf := Wrapping(number, rest);
    var step := FieldStep(Whole(buf), DetailsEffect(room));
    forall r: Reading ensures step(0, r).Some? && step(0, r).value.0 == 0 {
      TimeTurn(room, number, rest, r);
    }
    Circles(|buf|, step, 0, EMPTY, (r: Reading) => true, n);
  }

  lemma AmountTurn(room: nat, rest: seq<Byte>, o: Draft)
    requires |rest| + 11 < UINT64
    ensures var step := FieldStep(Whole(Wrapping(1, rest)), OutputEffect(room));
            step(0, o).Some? && step(0, o).value.0 == 0
  {
    WrappingField(1, rest);
    var buf := Wrapping(1, rest);
    hide FieldAt, Keep, Copied, Wrapping;
    assert IsBuffer(Whole(buf)) && 0 < |buf|;
    assert FieldTurn(Whole(buf), OutputEffect(room), 0, o).Some?;
  }

  /** And an amount of that length does so in an output. */
  lemma WrappedAmountNeverEnds(room: nat, rest: seq<Byte>, n: nat)
    requires |rest| + 11 < UINT64
    ensures OutputTurns(room, Whole(Wrapping(1, rest)), n) == Running
  {
    var buf := Wrapping(1, rest);
    var step := FieldStep(Whole(buf), OutputEffect(room));
    forall o: Draft ensures step(0, o).Some? && step(0, o).value.0 == 0 {
      AmountTurn(room, rest, o);
    }
    Circles(|buf|, step, 0, EMPTY_OUTPUT, (o: Draft) => true, n);
  }

  // ----- storing an unknown field

  const NINTH: seq<Byte> := [0xEA, 0xFF, 0xFF, 0xFF, 0xFF, 0xFF, 0xFF, 0xFF, 0xFF, 0x01]

  const ONES: seq<Byte> := [0xFF, 0xFF, 0xFF, 0xFF, 0xFF, 0xFF, 0xFF, 0xFF, 0xFF]

  /** The array after a 64-bit integer in field 8 was cut off in front of field 9 with its bytes. */
  const CUT: seq<Byte> := ([0x40] + ONES) + ([0x4A, 0x0A] + NINTH)

  lemma NinthIsStored(room: nat)
    ensures Keep(room, [], 0x4A, 0, Whole(NINTH)) == Some([0x4A, 0x0A] + NINTH)
    ensures Encoded([BytesWire(9, NINTH)]) == [0x4A, 0x0A] + NINTH
  {
    var w := BytesWire(9, NINTH);
    assert VarInt(0x4A) == [0x4A] && VarInt(10) == [0x0A];
    assert WireBytes(w) == [0x4A, 0x0A] + NINTH;
    hide VarInt, WireBytes, Keep;
    WiresNotEmpty([]);
    EncodedOne(w);
    KeepEncoded(room, [], w, 0);
    assert With([], w) == [w];
  }

  lemma EighthIsCut(room: nat, len: nat)
    ensures Packed(room, 0x40, UINT64 - 1, Buffer(None, len)) == Some([0x40] + ONES)
  {
    TopVarInt(1);
    assert VarInt(0x40) == [0x40];
    hide VarInt;
    assert ([0x40] + [255, 255, 255, 255, 255, 255, 255, 255, 255, 1])[..10] == [0x40] + ONES;
  }

  /** It is what storing field 9 and then field 8 leaves. */
  lemma CutIsStored(room: nat, len: nat)
    ensures Keep(room, [0x4A, 0x0A] + NINTH, 0x40, UINT64 - 1, Buffer(None, len)) == Some(CUT)
  {
    hide Keep, Packed, Encoded;
    NinthIsStored(room);
    EighthIsCut(room, len);
    KeepFirst(room, [BytesWire(9, NINTH)], 0x40, UINT64 - 1, Buffer(None, len), [0x40] + ONES);
  }

  lemma OnesInFront(rest: seq<Byte>)
    ensures [255] + ([255, 255, 255, 255] + ([255, 255, 255, 255] + rest)) == ONES + rest
  {
  }

  lemma CutVarInt()
    ensures VarInt(75 * 0x8000_0000_0000_0000 - 1) == ONES + [0x4A]
  {
    VarIntStep(74);
    hide VarInt;
    FourSteps(75, [0x4A]);
    FourSteps(75 * 0x1000_0000, [255, 255, 255, 255] + [0x4A]);
    OneStep(75 * 0x100_0000_0000_0000, [255, 255, 255, 255] + ([255, 255, 255, 255] + [0x4A]));
    OnesInFront([0x4A]);
  }

  lemma CutSpells()
    ensures Spells(CUT, 0, [0x40]) && Spells(CUT, 1, ONES + [0x4A]) && Spells(CUT, 11, [0x0A]) && Spells(CUT, 12, NINTH)
  {
    hide Spells;
    assert CUT == [] + [0x40] + (ONES + [0x4A] + [0x0A] + NINTH);
    assert CUT == [0x40] + (ONES + [0x4A]) + ([0x0A] + NINTH);
    assert CUT == ([0x40] + ONES + [0x4A]) + [0x0A] + NINTH;
    assert CUT == ([0x40] + ONES + [0x4A, 0x0A]) + NINTH + [];
    SpellsInside([], [0x40], ONES + [0x4A] + [0x0A] + NINTH);
    SpellsInside([0x40], ONES + [0x4A], [0x0A] + NINTH);
    SpellsInside([0x40] + ONES + [0x4A], [0x0A], NINTH);
    SpellsInside([0x40] + ONES + [0x4A, 0x0A], NINTH, []);
  }

  lemma CutKeys()
    ensures VarIntAt(Whole(CUT), 0) == Some((0x40, 1)) && VarIntAt(Whole(CUT), 11) == Some((0x0A, 12))
  {
    VarIntStep(0x40);
    VarIntStep(0x0A);
    hide VarInt, VarIntAt, Spells;
    CutSpells();
    VarIntReads(CUT, 0, 0x40);
    VarIntReads(CUT, 11, 0x0A);
  }

  lemma CutInteger()
    ensures VarIntAt(Whole(CUT), 1) == Some((0x7FFF_FFFF_FFFF_FFFF, 11))
  {
    CutVarInt();
    hide VarInt, VarIntAt, Spells;
    CutSpells();
    VarIntReads(CUT, 1, 75 * 0x8000_0000_0000_0000 - 1);
  }

  lemma CutLength()
    ensures VarIntAt(Whole(CUT), 12) == Some((UINT64 - 22, 22))
  {
    TopVarInt(22);
    hide VarInt, VarIntAt, Spells;
    CutSpells();
    VarIntReads(CUT, 12, UINT64 - 22);
  }

  /** The integer that was cut off takes up the key of the field behind it. */
  lemma CutReads()
    ensures FieldAt(Whole(CUT), 0) == Some(Taken(0x40, 0x7FFF_FFFF_FFFF_FFFF, Buffer(None, 22), 11))
  {
    CutKeys();
    CutInteger();
    hide VarIntAt;
  }

  /** What is left of that one reads as a length that leads back to the start. */
  lemma RestReads()
    ensures FieldAt(Whole(CUT), 11).Some?
    ensures FieldAt(Whole(CUT), 11).value.key == 0x0A && FieldAt(Whole(CUT), 11).value.off == 0
  {
    CutKeys();
    CutLength();
    hide VarIntAt, DataAt;
  }

  /** So storing any field of a greater key there never ends. */
  lemma {:induction false} StoreNeverEnds(key: nat, off: nat, s: Slot, n: nat)
    requires key > 0x40 && (off == 0 || off == 11)
    ensures Turns(22, StoreStep(CUT, key), off, s, n) == Running
    decreases n
  {
    CutReads();
    RestReads();
    hide FieldAt;
    if n > 0 {
      StoreNeverEnds(key, 11 - off, Slot(CUT, off), n - 1);
    }
  }

  lemma TenthIsLost(room: nat, len: nat)
    ensures Keep(room, CUT, 0x50, 0, Buffer(None, len)).None?
  {
    StoreNeverEnds(0x50, 0, Slot(CUT, 0), 22);
    hide Packed, StoreStep, Turns;
  }

  const UNKNOWNS: seq<Wire> := [BytesWire(9, NINTH), IntWire(8, UINT64 - 1), IntWire(10, 0)]

  /** Three unknown fields in a row, all well-formed: the third cannot be stored. */
  lemma UnknownNeverEnds(room: nat)
    ensures AreWires(UNKNOWNS) && !Ends(room, Encoded(UNKNOWNS))
    ensures Encoded(UNKNOWNS) == ([0x4A, 0x0A] + NINTH) + ([0x40] + ONES + [0x01]) + [0x50, 0x00]
  {
    hide FieldsResult, Encoded, Fold, Ends, ParsedDetails;
    assert AreWires(UNKNOWNS);
    UnknownsBytes(room);
    EndsExactly(room, Encoded(UNKNOWNS));
    FieldsFold(DetailsEffect(room), EMPTY, UNKNOWNS);
    UnknownsLost(room, |Encoded(UNKNOWNS)|);
    ParsedFields(room, Encoded(UNKNOWNS));
  }

  lemma ParsedFields(room: nat, buf: seq<Byte>)
    ensures ParsedDetails(room, buf).Some? <==> FieldsResult(Whole(buf), DetailsEffect(room), EMPTY).Some?
  {
  }

  /** Their bytes. */
  lemma UnknownsBytes(room: nat)
    ensures Encoded(UNKNOWNS) == ([0x4A, 0x0A] + NINTH) + ([0x40] + ONES + [0x01]) + [0x50, 0x00]
  {
    var a, b, c := BytesWire(9, NINTH), IntWire(8, UINT64 - 1), IntWire(10, 0);
    TopVarInt(1);
    VarIntStep(0x40);
    VarIntStep(0x50);
    VarIntStep(0);
    hide VarInt;
    assert WireBytes(b) == [0x40] + ONES + [0x01] && WireBytes(c) == [0x50, 0x00];
    hide Encoded, WireBytes;
    NinthIsStored(room);
    EncodedOne(b);
    EncodedOne(c);
    EncodedAppend([a], [b]);
    EncodedAppend([a] + [b], [c]);
    assert [a] + [b] + [c] == UNKNOWNS;
  }

  lemma UnknownsLost(room: nat, len: nat)
    ensures Fold(DetailsEffect(room), len, EMPTY, UNKNOWNS).None?
  {
    NinthIsStored(room);
    CutIsStored(room, len);
    TenthIsLost(room, len);
    hide Keep, ParsedOutput, Text, Fold;
    var effect := DetailsEffect(room);
    var r1 := EMPTY.(d := EMPTY.d.(unknown := [0x4A, 0x0A] + NINTH));
    var r2 := EMPTY.(d := EMPTY.d.(unknown := CUT));
    var a, b, c := BytesWire(9, NINTH), IntWire(8, UINT64 - 1), IntWire(10, 0);
    FoldOne(effect, len, EMPTY, a);
    FoldOne(effect, len, r1, b);
    FoldOne(effect, len, r2, c);
    FoldAppend(effect, len, EMPTY, [a], [b]);
    FoldAppend(effect, len, EMPTY, [a] + [b], [c]);
    assert [a] + [b] + [c] == UNKNOWNS;
  }

  // ----- short buffers

  /** An outputs field written as an integer: the output loop runs on NULL with the length of the buffer. */
  lemma IntegerOutputNeverEnds(room: nat)
    ensures !Ends(room, [0x10, 0x00])
  {
    var buf := [0x10, 0x00];
    var w := IntWire(2, 0);
    VarIntStep(0x10);
    VarIntStep(0);
    assert WireBytes(w) == buf;
    hide WireBytes, FieldsResult, Fold, Ends, ParsedOutput;
    EncodedOne(w);
    EndsExactly(room, buf);
    FieldsFold(DetailsEffect(room), EMPTY, [w]);
    FoldOne(DetailsEffect(room), 2, EMPTY, w);
    NullIsLost(room, 2);
  }

  /** A time of wire type 2 whose length wraps. */
  lemma WrappedTimeExample(room: nat)
    ensures Wrapping(3, []) == [0x1A, 0xF5, 0xFF, 0xFF, 0xFF, 0xFF, 0xFF, 0xFF, 0xFF, 0xFF, 0x01]
    ensures !Ends(room, Wrapping(3, []))
  {
    forall n: nat ensures DetailsTurns(room, Wrapping(3, []), n) == Running {
      WrappedTimeNeverEnds(room, 3, [], n);
    }
  }

  /** An output whose amount is of wire type 2 and has a length that wraps. */
  lemma WrappedAmountExample(room: nat)
    ensures !Ends(room, [0x12, 0x0B] + Wrapping(1, []))
  {
    OneOutput(Wrapping(1, []));
    assert |Wrapping(1, [])| == 11;
    AmountLost(room);
    LostOutput(room, Wrapping(1, []));
  }

  lemma LostOutput(room: nat, data: seq<Byte>)
    requires |data| < 128 && ParsedOutput(room, Whole(data)).None?
    ensures !Ends(room, [0x12, |data|] + data)
  {
    var w := BytesWire(2, data);
    OneOutput(data);
    hide FieldsResult, Fold, Ends, ParsedOutput, WireBytes;
    EncodedOne(w);
    EndsExactly(room, [0x12, |data|] + data);
    FieldsFold(DetailsEffect(room), EMPTY, [w]);
    FoldOne(DetailsEffect(room), |data| + 2, EMPTY, w);
  }

  lemma AmountLost(room: nat)
    ensures ParsedOutput(room, Whole(Wrapping(1, []))).None?
  {
    assert |Wrapping(1, [])| == 11;
    hide Wrapping, Turns, FieldStep;
    WrappedAmountNeverEnds(room, [], 11);
  }

  lemma OneOutput(data: seq<Byte>)
    requires |data| < 128
    ensures WireBytes(BytesWire(2, data)) == [0x12, |data|] + data
  {
    VarIntStep(0x12);
    VarIntStep(|data|);
    hide VarInt;
  }

  lemma UnknownOutput(room: nat)
    ensures ParsedOutput(room, Whole([0x18, 0x00])) == Some(EMPTY_OUTPUT.(unknown := [0x18, 0x00]))
  {
    var u := IntWire(3, 0);
    VarIntStep(0x18);
    VarIntStep(0);
    assert WireBytes(u) == [0x18, 0x00];
    hide FieldsResult, Fold, WireBytes, Keep, IsWire;
    EncodedOne(u);
    WiresNotEmpty([]);
    KeepEncoded(room, [], u, 2);
    FieldsFold(OutputEffect(room), EMPTY_OUTPUT, [u]);
    FoldOne(OutputEffect(room), 2, EMPTY_OUTPUT, u);
  }

  lemma FoundOutput(room: nat, data: seq<Byte>)
    requires |data| < 128 && ParsedOutput(room, Whole(data)).Some?
    ensures Ends(room, [0x12, |data|] + data)
  {
    var w := BytesWire(2, data);
    OneOutput(data);
    hide FieldsResult, Fold, Ends, ParsedOutput, WireBytes;
    EncodedOne(w);
    EndsExactly(room, [0x12, |data|] + data);
    FieldsFold(DetailsEffect(room), EMPTY, [w]);
    FoldOne(DetailsEffect(room), |data| + 2, EMPTY, w);
  }

  /** An unknown field within an output is no obstacle. */
  lemma UnknownFieldEnds(room: nat)
    ensures Ends(room, [0x12, 0x02, 0x18, 0x00])
  {
    assert [0x12, 0x02] + [0x18, 0x00] == [0x12, 0x02, 0x18, 0x00];
    hide Ends, ParsedOutput;
    UnknownOutput(room);
    FoundOutput(room, [0x18, 0x00]);
  }
}

/** The protobuf layer of bitcoin/BRPaymentProtocol.c: variable-length integers and fields. */
module ProtoBuf {
  import opened Wrappers
  import opened Bytes

  const UINT64: nat := 0x1_0000_0000_0000_0000

  const VARINT: nat := 0
  const FIXED64: nat := 1
  const LENDELIM: nat := 2
  const FIXED32: nat := 5

  // ----- variable-length integers

  /** Seven bits a byte, lowest first, the high bit set on all but the last. */
  function VarInt(i: nat): (s: seq<Byte>)
    ensures s != []
  {
    if i < 128 then [i] else [128 + i % 128] + VarInt(i / 128)
  }

  /** A byte without the high bit occurs. */
  predicate IsTerminated(buf: seq<Byte>) {
    buf != [] && (buf[0] < 128 || IsTerminated(buf[1..]))
  }

  /** The bytes up to and including that one, or all. */
  function VarIntLength(buf: seq<Byte>): (n: nat)
    ensures n <= |buf| && (buf != [] ==> n > 0)
  {
    if buf == [] then 0 else if buf[0] < 128 then 1 else 1 + VarIntLength(buf[1..])
  }

  /** The number they spell, not yet reduced to 64 bits. */
  function Spelled(buf: seq<Byte>): nat {
    if buf == [] then 0 else buf[0] % 128 + (if buf[0] < 128 then 0 else 128 * Spelled(buf[1..]))
  }

  /** The value read, and the bytes after it. */
  function ReadVarInt(buf: seq<Byte>): (nat, seq<Byte>) {
    (if IsTerminated(buf) then Spelled(buf) % UINT64 else 0, buf[VarIntLength(buf)..])
  }

  lemma {:induction false} VarIntSpells(i: nat, rest: seq<Byte>)
    ensures IsTerminated(VarInt(i) + rest) && Spelled(VarInt(i) + rest) == i
    ensures VarIntLength(VarInt(i) + rest) == |VarInt(i)|
  {
    if i >= 128 {
      VarIntSpells(i / 128, rest);
      assert (VarInt(i) + rest)[1..] == VarInt(i / 128) + rest;
    }
  }

  /** Reading inverts writing on all 64-bit values, and moves by as many bytes as were written. */
  lemma VarIntRoundTrip(i: nat, rest: seq<Byte>)
    requires i < UINT64
    ensures ReadVarInt(VarInt(i) + rest) == (i, rest)
  {
    hide VarInt, Spelled, IsTerminated, VarIntLength;
    VarIntSpells(i, rest);
    assert (VarInt(i) + rest)[|VarInt(i)|..] == rest;
  }

  lemma {:induction false} VarIntIsShort(i: nat, n: nat)
    requires n > 0 && i < Power128(n)
    ensures |VarInt(i)| <= n
  {
    if i >= 128 {
      assert Power128(1) == 128;
      VarIntIsShort(i / 128, n - 1);
    }
  }

  /** A 64-bit value takes at most ten bytes. */
  lemma AtMostTen(i: nat)
    requires i < UINT64
    ensures |VarInt(i)| <= 10
  {
    assert Power128(5) == 0x8_0000_0000;
    assert Power128(8) == 0x100_0000_0000_0000;
    assert Power128(10) == 0x40_0000_0000_0000_0000;
    VarIntIsShort(i, 10);
  }

  function Power128(n: nat): nat {
    if n == 0 then 1 else 128 * Power128(n - 1)
  }

  // ----- reading from memory

  /** A buffer as the source passes it on: a pointer, NULL or to the bytes that are there, and a length, which
      can promise more of them. */
  datatype Buffer = Buffer(mem: Option<seq<Byte>>, len: nat)

  predicate IsBuffer(b: Buffer) {
    b.len < UINT64 && (b.mem.Some? ==> |b.mem.value| <= b.len)
  }

  /** As much memory as promised. */
  predicate IsWhole(b: Buffer) {
    b.mem.Some? && |b.mem.value| == b.len
  }

  function Whole(s: seq<Byte>): Buffer { Buffer(Some(s), |s|) }

  /** The integer at an offset and the offset after it.  `None`: the bytes run out of memory, or there are
      more than ten of them, which shifts past the word. */
  function VarIntAt(b: Buffer, off: nat): (r: Option<(nat, nat)>)
    requires IsBuffer(b)
    ensures r.Some? ==> r.value.0 < UINT64 && off <= r.value.1
    ensures r.Some? && off <= b.len ==> r.value.1 <= b.len
    ensures r.Some? && b.mem.Some? && off < b.len ==> off < r.value.1 <= |b.mem.value|
  {
    if b.mem.None? || off >= b.len then Some((0, off))
    else if off >= |b.mem.value| then None
    else
      var rest := b.mem.value[off..];
      var n := VarIntLength(rest);
      if n > 10 || (!IsTerminated(rest) && |b.mem.value| < b.len) then None else Some((ReadVarInt(rest).0, off + n))
  }

  /** `_ProtoBufVarInt`. */
  method ReadVarIntAt(buf: Buffer, off0: nat) returns (r: Option<(nat, nat)>)
    requires IsBuffer(buf)
    ensures r == VarIntAt(buf, off0)
  {
    hide Spelled, IsTerminated, VarIntLength;
    var off, sum: nat, b: nat, factor: nat := off0, 0, 0x80, 1;
    if buf.mem.None? || off >= buf.len {
      return Some((0, off));
    }
    var mem := buf.mem.value;
    ghost var total: nat := 0;
    ghost var rest0 := if off0 <= |mem| then mem[off0..] else [];
    NothingSpelled();
    while b >= 128 && off < buf.len
      invariant off0 <= off <= off0 + 10 && off <= buf.len && (off == off0 || off <= |mem|) && 0 <= b < 256
      invariant off == off0 ==> b >= 128
      invariant sum == total % UINT64
      invariant b >= 128 && off <= |mem| ==>
        && total + factor * Spelled(mem[off..]) == Spelled(rest0)
        && (IsTerminated(rest0) <==> IsTerminated(mem[off..]))
        && off - off0 + VarIntLength(mem[off..]) == VarIntLength(rest0)
      invariant b < 128 ==> total == Spelled(rest0) && IsTerminated(rest0) && off - off0 == VarIntLength(rest0)
      decreases buf.len - off
    {
      if off >= |mem| || off - off0 == 10 {
        return None;
      }
      ghost var rest := mem[off..];
      b := mem[off];
      assert rest[0] == b && rest[1..] == mem[off + 1..];
      Unfold(rest);
      OneByte(total, factor, rest);
      ModularSum(total, b % 128 * factor);
      sum := (sum + b % 128 * factor) % UINT64;
      total := total + b % 128 * factor;
      factor := factor * 128;
      off := off + 1;
    }
    r := Some((if b >= 128 then 0 else sum, off));
  }

  lemma Unfold(rest: seq<Byte>)
    requires rest != []
    ensures IsTerminated(rest) <==> rest[0] < 128 || IsTerminated(rest[1..])
    ensures VarIntLength(rest) == if rest[0] < 128 then 1 else 1 + VarIntLength(rest[1..])
  {
  }

  lemma NothingSpelled()
    ensures !IsTerminated([]) && VarIntLength([]) == 0
  {
  }

  lemma OneByte(total: nat, factor: nat, rest: seq<Byte>)
    requires rest != []
    ensures rest[0] >= 128 ==>
              total + factor * Spelled(rest) == total + rest[0] % 128 * factor + factor * 128 * Spelled(rest[1..])
    ensures rest[0] < 128 ==> factor * Spelled(rest) == rest[0] % 128 * factor
  {
    SpelledUnfold(rest);
    hide Spelled;
    Shifted(factor, rest[0] % 128, Spelled(rest[1..]));
  }

  lemma SpelledUnfold(rest: seq<Byte>)
    requires rest != []
    ensures Spelled(rest) == rest[0] % 128 + (if rest[0] < 128 then 0 else 128 * Spelled(rest[1..]))
  {
  }

  lemma Shifted(factor: int, a: int, s: int)
    ensures factor * (a + 128 * s) == a * factor + factor * 128 * s
    ensures factor * a == a * factor
  {
  }

  lemma ModularSum(a: nat, b: nat)
    ensures (a % UINT64 + b) % UINT64 == (a + b) % UINT64
  {
  }

  // ----- writing into a buffer, or only counting

  /** `off` bytes have been written, as far as there is a buffer and it is large enough. */
  ghost predicate Holds(buf: array?<Byte>, off: nat, s: seq<Byte>)
    reads buf
  {
    off == |s| && (buf != null && off <= buf.Length ==> buf[..off] == s)
  }

  /** As much of them as fits is there. */
  ghost predicate Covers(buf: array?<Byte>, s: seq<Byte>)
    reads buf
  {
    buf != null ==> forall k :: 0 <= k < |s| && k < buf.Length ==> buf[k] == s[k]
  }

  /** Writing one byte at `off0`, if it fits. */
  method PutByte(buf: array?<Byte>, b: Byte, off0: nat, ghost done: seq<Byte>) returns (off: nat)
    requires Holds(buf, off0, done)
    modifies if buf == null then {} else {buf}
    ensures Holds(buf, off, done + [b])
    ensures old(Covers(buf, done)) ==> Covers(buf, done + [b])
  {
    if buf != null && off0 + 1 <= buf.Length {
      buf[off0] := b;
      assert buf[..off0 + 1] == buf[..off0] + [b];
    }
    off := off0 + 1;
  }

  lemma VarIntUnfold(i: nat)
    ensures VarInt(i) == if i / 128 > 0 then [128 + i % 128] + VarInt(i / 128) else [i % 128]
  {
  }

  /** `_ProtoBufSetVarInt`. */
  method SetVarInt(buf: array?<Byte>, i0: nat, off0: nat, ghost done: seq<Byte>) returns (off: nat)
    requires Holds(buf, off0, done)
    modifies if buf == null then {} else {buf}
    ensures Holds(buf, off, done + VarInt(i0))
    ensures old(Covers(buf, done)) ==> Covers(buf, done + VarInt(i0))
  {
    hide VarInt, Holds, Covers;
    off := off0;
    var i: nat, b: Byte := i0, 0;
    ghost var now := done;
    var more := true;
    while more
      invariant Holds(buf, off, now) && (old(Covers(buf, done)) ==> Covers(buf, now))
      invariant if more then now + VarInt(i) == done + VarInt(i0) else now == done + VarInt(i0)
      decreases more, i
    {
      VarIntUnfold(i);
      b, i := i % 128, i / 128;
      if i > 0 {
        b := b + 128;
      }
      off := PutByte(buf, b, off, now);
      now := now + [b];
      more := i > 0;
    }
  }

  /** Copying `data` to `off`. */
  method SetData(buf: array?<Byte>, data: seq<Byte>, off0: nat, ghost done: seq<Byte>) returns (off: nat)
    requires Holds(buf, off0, done)
    modifies if buf == null then {} else {buf}
    ensures Holds(buf, off, done + data)
    ensures buf != null && off > buf.Length ==> buf[..] == old(buf[..])
  {
    if buf != null && off0 + |data| <= buf.Length {
      for k := 0 to |data|
        invariant buf[..off0] == done && buf[off0..off0 + k] == data[..k]
      {
        buf[off0 + k] := data[k];
      }
      assert buf[..off0 + |data|] == buf[..off0] + buf[off0..off0 + |data|];
    }
    off := off0 + |data|;
  }

  function Delimited(data: seq<Byte>): seq<Byte> { VarInt(|data|) + data }

  function IntField(key: nat, i: nat): seq<Byte> { VarInt(key * 8 + VARINT) + VarInt(i) }

  function BytesField(key: nat, data: seq<Byte>): seq<Byte> { VarInt(key * 8 + LENDELIM) + Delimited(data) }

  /** `_ProtoBufSetInt`. */
  method SetInt(buf: array?<Byte>, i: nat, key: nat, off0: nat, ghost done: seq<Byte>) returns (off: nat)
    requires Holds(buf, off0, done)
    modifies if buf == null then {} else {buf}
    ensures Holds(buf, off, done + IntField(key, i))
  {
    hide VarInt;
    off := SetVarInt(buf, key * 8 + VARINT, off0, done);
    off := SetVarInt(buf, i, off, done + VarInt(key * 8 + VARINT));
    assert (done + VarInt(key * 8 + VARINT)) + VarInt(i) == done + IntField(key, i);
  }

  /** `_ProtoBufSetBytes`, and `_ProtoBufSetString` on the characters of a string. */
  method SetBytes(buf: array?<Byte>, data: seq<Byte>, key: nat, off0: nat, ghost done: seq<Byte>) returns (off: nat)
    requires Holds(buf, off0, done)
    modifies if buf == null then {} else {buf}
    ensures Holds(buf, off, done + BytesField(key, data))
  {
    hide VarInt;
    ghost var tag := VarInt(key * 8 + LENDELIM);
    off := SetVarInt(buf, key * 8 + LENDELIM, off0, done);
    off := SetVarInt(buf, |data|, off, done + tag);
    off := SetData(buf, data, off, done + tag + VarInt(|data|));
    assert done + tag + VarInt(|data|) + data == done + BytesField(key, data);
  }

  // ----- reading fields

  /** The integer of `size` bytes at an offset, zero if they run past the end. */
  function FixedAt(b: Buffer, off: nat, size: nat): (r: Option<(nat, nat)>)
    requires IsBuffer(b) && size <= 8
    ensures r.Some? ==> r.value.0 < UINT64 && r.value.1 < UINT64
  {
    var o := (off + size) % UINT64;
    if b.mem.None? || o > b.len then Some((0, o))
    else if off + size > |b.mem.value| then None
    else
      Pow256Monotone(size, 8);
      assert Pow256(8) == UINT64;
      Some((FromLE(b.mem.value[off..off + size]), o))
  }

  /** The data of a given length at an offset: NULL if they run past the end, by a sum that wraps. */
  function DataAt(b: Buffer, off: nat, n: nat): (r: Buffer)
    requires IsBuffer(b) && n < UINT64 && (b.mem.Some? ==> off <= |b.mem.value|)
    ensures IsBuffer(r)
  {
    if b.mem.None? || (off + n) % UINT64 > b.len then Buffer(None, n)
    else Buffer(Some(if off + n <= |b.mem.value| then b.mem.value[off..off + n] else b.mem.value[off..]), n)
  }

  /** A field: its key, its integer or its data, and the offset after it.  Other kinds of fields leave NULL
      and the length of the buffer for data. */
  datatype Taken = Taken(key: nat, i: nat, data: Buffer, off: nat)

  /** What follows a key. */
  function BodyAt(b: Buffer, key: nat, o: nat): (r: Option<Taken>)
    requires IsBuffer(b) && key < UINT64 && o <= b.len && (b.mem.Some? ==> o <= |b.mem.value|)
    ensures r.Some? ==> r.value.key == key && r.value.i < UINT64 && IsBuffer(r.value.data) && r.value.off < UINT64
  {
    if key % 8 == VARINT then Number(b, key, VarIntAt(b, o))
    else if key % 8 == FIXED64 then Number(b, key, FixedAt(b, o, 8))
    else if key % 8 == LENDELIM then
      match VarIntAt(b, o)
      case None => None
      case Some((n, p)) => Some(Taken(key, 0, DataAt(b, p, n), (p + n) % UINT64))
    else if key % 8 == FIXED32 then Number(b, key, FixedAt(b, o, 4))
    else Some(Taken(key, 0, Buffer(None, b.len), o))
  }

  /** The field at an offset. */
  function FieldAt(b: Buffer, off: nat): (r: Option<Taken>)
    requires IsBuffer(b) && off < b.len
    ensures r.Some? ==> r.value.key < UINT64 && r.value.i < UINT64 && IsBuffer(r.value.data) && r.value.off < UINT64
  {
    match VarIntAt(b, off) case None => None case Some((key, o)) => BodyAt(b, key, o)
  }

  function Number(b: Buffer, key: nat, v: Option<(nat, nat)>): Option<Taken> {
    match v case None => None case Some((i, o)) => Some(Taken(key, i, Buffer(None, b.len), o))
  }

  /** `_ProtoBufFixed`. */
  method ReadFixedAt(b: Buffer, off0: nat, size: nat) returns (r: Option<(nat, nat)>)
    requires IsBuffer(b) && size <= 8
    ensures r == FixedAt(b, off0, size)
  {
    hide FromLE;
    var i, off := 0, (off0 + size) % UINT64;
    if b.mem.Some? && off <= b.len {
      if off0 + size > |b.mem.value| {
        return None;
      }
      i := FromLE(b.mem.value[off0..off0 + size]);
    }
    r := Some((i, off));
  }

  /** `_ProtoBufField` with `_ProtoBufLenDelim`. */
  method ReadFieldAt(b: Buffer, off0: nat) returns (r: Option<Taken>)
    requires IsBuffer(b) && off0 < b.len
    ensures r == FieldAt(b, off0)
  {
    hide VarIntAt, FixedAt;
    var v := ReadVarIntAt(b, off0);
    if v.None? {
      return None;
    }
    var (key, off) := v.value;
    if key % 8 == VARINT {
      v := ReadVarIntAt(b, off);
    } else if key % 8 == FIXED64 {
      v := ReadFixedAt(b, off, 8);
    } else if key % 8 == FIXED32 {
      v := ReadFixedAt(b, off, 4);
    } else if key % 8 != LENDELIM {
      v := Some((0, off));
    } else {
      v := ReadVarIntAt(b, off);
      if v.None? {
        return None;
      }
      var (n, next) := v.value;
      return Some(Taken(key, 0, DataAt(b, next, n), (next + n) % UINT64));
    }
    if v.None? {
      return None;
    }
    r := Some(Taken(key, v.value.0, Buffer(None, b.len), v.value.1));
  }

  // ----- fields and their bytes

  /** A field with its whole key, whose low bits are the kind: `i` is the integer, if it has one, `data` its
      bytes, if it has some. */
  datatype Wire = Wire(key: nat, i: nat, data: Option<seq<Byte>>)

  function IntWire(key: nat, i: nat): Wire { Wire(key * 8 + VARINT, i, None) }

  function BytesWire(key: nat, data: seq<Byte>): Wire { Wire(key * 8 + LENDELIM, 0, Some(data)) }

  predicate IsWire(w: Wire) {
    && w.key < UINT64 && (w.data.Some? <==> w.key % 8 == LENDELIM) && (w.data.Some? ==> |w.data.value| < UINT64)
    && w.i < (match w.key % 8 case 0 => UINT64 case 1 => UINT64 case 5 => 0x1_0000_0000 case _ => 1)
  }

  /** The header of a field and what follows it. */
  function WireHead(w: Wire): (s: seq<Byte>) {
    VarInt(w.key)
    + if w.key % 8 == VARINT then VarInt(w.i)
      else if w.key % 8 == FIXED64 then ToLE(w.i, 8)
      else if w.key % 8 == FIXED32 then ToLE(w.i, 4)
      else if w.data.Some? then VarInt(|w.data.value|)
      else []
  }

  function WireBytes(w: Wire): (s: seq<Byte>) {
    if w.data.Some? then WireHead(w) + w.data.value else WireHead(w)
  }

  /** The data that reading the field hands back from a buffer of `len` bytes. */
  function DataOf(w: Wire, len: nat): Buffer {
    if w.data.Some? then Whole(w.data.value) else Buffer(None, len)
  }

  function Encoded(s: seq<Wire>): seq<Byte> {
    if s == [] then [] else WireBytes(s[0]) + Encoded(s[1..])
  }

  /** A field found in its place in a buffer. */
  predicate Spells(buf: seq<Byte>, off: nat, s: seq<Byte>) {
    off + |s| <= |buf| && buf[off..off + |s|] == s
  }

  lemma SpellsParts(buf: seq<Byte>, off: nat, s: seq<Byte>, t: seq<Byte>)
    ensures Spells(buf, off, s + t) <==> Spells(buf, off, s) && Spells(buf, off + |s|, t)
  {
    if off + |s| + |t| <= |buf| {
      assert buf[off..off + |s + t|] == buf[off..off + |s|] + buf[off + |s|..off + |s| + |t|];
      assert (s + t)[..|s|] == s && (s + t)[|s|..] == t;
    }
  }

  lemma VarIntReads(buf: seq<Byte>, off: nat, i: nat)
    requires Spells(buf, off, VarInt(i)) && |VarInt(i)| <= 10 && |buf| < UINT64
    ensures VarIntAt(Whole(buf), off) == Some((i % UINT64, off + |VarInt(i)|))
  {
    hide VarInt, Spelled, IsTerminated, VarIntLength;
    var n := |VarInt(i)|;
    VarIntSpells(i, buf[off + n..]);
    assert buf[off..] == VarInt(i) + buf[off + n..];
  }

  lemma FixedReads(buf: seq<Byte>, off: nat, i: nat, size: nat)
    requires Spells(buf, off, ToLE(i, size)) && i < Pow256(size) && size <= 8 && |buf| < UINT64
    ensures FixedAt(Whole(buf), off, size) == Some((i, off + size))
  {
    hide ToLE, FromLE;
    FromToLE(i, size);
  }

  lemma KeyReads(buf: seq<Byte>, off: nat, key: nat, tail: seq<Byte>)
    requires key < UINT64 && |buf| < UINT64 && Spells(buf, off, VarInt(key) + tail)
    ensures off < |buf| && VarIntAt(Whole(buf), off) == Some((key, off + |VarInt(key)|))
    ensures Spells(buf, off + |VarInt(key)|, tail)
  {
    hide VarInt, VarIntAt, Spells;
    AtMostTen(key);
    SpellsParts(buf, off, VarInt(key), tail);
    VarIntReads(buf, off, key);
    assert off < |buf| by {
      SpellsWithin(buf, off, VarInt(key));
    }
  }

  lemma SpellsWithin(buf: seq<Byte>, off: nat, s: seq<Byte>)
    requires Spells(buf, off, s)
    ensures off + |s| <= |buf|
  {
  }

  /** What follows the key of a field without data. */
  function Tail(w: Wire): seq<Byte> {
    if w.key % 8 == VARINT then VarInt(w.i)
    else if w.key % 8 == FIXED64 then ToLE(w.i, 8)
    else if w.key % 8 == FIXED32 then ToLE(w.i, 4)
    else []
  }

  lemma TailReads(buf: seq<Byte>, o: nat, w: Wire)
    requires IsWire(w) && w.data.None? && |buf| < UINT64 && Spells(buf, o, Tail(w))
    ensures BodyAt(Whole(buf), w.key, o) == Some(Taken(w.key, w.i, Buffer(None, |buf|), o + |Tail(w)|))
  {
    hide VarInt, ToLE, VarIntAt, FixedAt, Spells;
    if w.key % 8 == VARINT {
      AtMostTen(w.i);
      VarIntReads(buf, o, w.i);
    } else if w.key % 8 == FIXED64 {
      assert Pow256(8) == UINT64;
      FixedReads(buf, o, w.i, 8);
    } else if w.key % 8 == FIXED32 {
      assert Pow256(4) == 0x1_0000_0000;
      FixedReads(buf, o, w.i, 4);
    }
  }

  lemma DataReads(buf: seq<Byte>, p: nat, data: seq<Byte>)
    requires |buf| < UINT64 && Spells(buf, p, data)
    ensures DataAt(Whole(buf), p, |data|) == Whole(data) && (p + |data|) % UINT64 == p + |data|
  {
  }

  lemma NumberReads(buf: seq<Byte>, off: nat, w: Wire)
    requires IsWire(w) && w.data.None? && |buf| < UINT64 && Spells(buf, off, WireHead(w))
    ensures off < |buf|
    ensures FieldAt(Whole(buf), off) == Some(Taken(w.key, w.i, Buffer(None, |buf|), off + |WireHead(w)|))
  {
    assert WireHead(w) == VarInt(w.key) + Tail(w);
    hide VarInt, VarIntAt, Spells, BodyAt, WireHead, Tail;
    KeyReads(buf, off, w.key, Tail(w));
    TailReads(buf, off + |VarInt(w.key)|, w);
  }

  lemma DelimitedReads(buf: seq<Byte>, o: nat, key: nat, data: seq<Byte>)
    requires key < UINT64 && key % 8 == LENDELIM && |buf| < UINT64 && |data| < UINT64 && o <= |buf|
    requires Spells(buf, o, VarInt(|data|)) && Spells(buf, o + |VarInt(|data|)|, data)
    ensures BodyAt(Whole(buf), key, o) == Some(Taken(key, 0, Whole(data), o + |VarInt(|data|)| + |data|))
  {
    hide VarInt, VarIntAt, Spells, DataAt;
    AtMostTen(|data|);
    VarIntReads(buf, o, |data|);
    DataReads(buf, o + |VarInt(|data|)|, data);
  }

  lemma BytesParts(w: Wire)
    requires w.data.Some? && w.key % 8 == LENDELIM
    ensures WireBytes(w) == VarInt(w.key) + (VarInt(|w.data.value|) + w.data.value)
  {
    hide VarInt;
  }

  lemma BytesRead(buf: seq<Byte>, off: nat, w: Wire)
    requires IsWire(w) && w.data.Some? && |buf| < UINT64 && Spells(buf, off, WireBytes(w))
    ensures off < |buf|
    ensures FieldAt(Whole(buf), off) == Some(Taken(w.key, 0, Whole(w.data.value), off + |WireBytes(w)|))
  {
    hide VarInt, VarIntAt, Spells, WireBytes, BodyAt;
    var data := w.data.value;
    BytesParts(w);
    KeyReads(buf, off, w.key, VarInt(|data|) + data);
    SpellsParts(buf, off + |VarInt(w.key)|, VarInt(|data|), data);
    SpellsWithin(buf, off + |VarInt(w.key)|, VarInt(|data|));
    DelimitedReads(buf, off + |VarInt(w.key)|, w.key, data);
  }

  /** Reading inverts writing for every kind of field, anywhere in a buffer. */
  lemma WireReads(buf: seq<Byte>, off: nat, w: Wire)
    requires IsWire(w) && |buf| < UINT64 && Spells(buf, off, WireBytes(w))
    ensures off < |buf|
    ensures FieldAt(Whole(buf), off)
         == Some(Taken(w.key, w.i, DataOf(w, |buf|), off + |WireBytes(w)|))
  {
    hide WireHead, FieldAt, Spells;
    if w.data.Some? {
      BytesRead(buf, off, w);
    } else {
      NumberReads(buf, off, w);
    }
  }

  // ----- lists of fields

  predicate AreWires(s: seq<Wire>) { forall k :: 0 <= k < |s| ==> IsWire(s[k]) }

  lemma EncodedUnfold(s: seq<Wire>)
    ensures Encoded(s) == if s == [] then [] else WireBytes(s[0]) + Encoded(s[1..])
  {
    hide WireBytes;
  }

  lemma Reassociate(a: seq<Byte>, b: seq<Byte>, c: seq<Byte>)
    ensures a + (b + c) == (a + b) + c
  {
  }

  lemma {:induction false} EncodedAppend(s: seq<Wire>, t: seq<Wire>)
    ensures Encoded(s + t) == Encoded(s) + Encoded(t)
  {
    hide WireBytes, Encoded;
    EncodedUnfold(s);
    EncodedUnfold(s + t);
    if s == [] {
      assert s + t == t;
      assert [] + Encoded(t) == Encoded(t);
    } else {
      EncodedAppend(s[1..], t);
      assert (s + t)[1..] == s[1..] + t;
      Reassociate(WireBytes(s[0]), Encoded(s[1..]), Encoded(t));
    }
  }

  /** The offset of a field in its list. */
  function Place(s: seq<Wire>, j: nat): nat
    requires j <= |s|
  {
    |Encoded(s[..j])|
  }

  lemma EncodedSplit(s: seq<Wire>, j: nat)
    requires j <= |s|
    ensures Encoded(s) == Encoded(s[..j]) + Encoded(s[j..])
  {
    hide Encoded;
    EncodedAppend(s[..j], s[j..]);
    assert s[..j] + s[j..] == s;
  }

  lemma EncodedOne(w: Wire)
    ensures Encoded([w]) == WireBytes(w)
  {
    hide WireBytes;
    assert [w][1..] == [];
  }

  lemma PlaceStep(s: seq<Wire>, j: nat)
    requires j < |s|
    ensures Place(s, j + 1) == Place(s, j) + |WireBytes(s[j])| <= |Encoded(s)|
    ensures Spells(Encoded(s), Place(s, j), WireBytes(s[j]))
  {
    hide WireBytes, Encoded, Spells;
    EncodedOne(s[j]);
    EncodedAppend(s[..j], [s[j]]);
    assert s[..j] + [s[j]] == s[..j + 1];
    EncodedSplit(s, j + 1);
    SpellsInside(Encoded(s[..j]), WireBytes(s[j]), Encoded(s[j + 1..]));
  }

  lemma SpellsInside(a: seq<Byte>, b: seq<Byte>, c: seq<Byte>)
    ensures Spells(a + b + c, |a|, b)
  {
  }

  /** The fields of a list read back one after the other. */
  lemma ListReads(s: seq<Wire>, j: nat)
    requires j < |s| && AreWires(s) && |Encoded(s)| < UINT64
    ensures Place(s, j) < |Encoded(s)| && Place(s, j) < Place(s, j + 1) <= |Encoded(s)|
    ensures FieldAt(Whole(Encoded(s)), Place(s, j)) == Some(Taken(s[j].key, s[j].i, DataOf(s[j], |Encoded(s)|), Place(s, j + 1)))
  {
    hide WireBytes, Encoded, Spells, FieldAt, Place;
    PlaceStep(s, j);
    WireReads(Encoded(s), Place(s, j), s[j]);
    WireNotEmpty(s[j]);
  }

  lemma WireNotEmpty(w: Wire)
    ensures WireBytes(w) != []
  {
  }

  lemma PlaceEnds(s: seq<Wire>)
    ensures Place(s, 0) == 0 && Place(s, |s|) == |Encoded(s)|
  {
    assert s[..|s|] == s && s[..0] == [];
  }

  lemma {:induction false} EncodedLength(s: seq<Wire>)
    ensures |s| <= |Encoded(s)|
  {
    hide WireBytes;
    if s != [] {
      WireNotEmpty(s[0]);
      EncodedLength(s[1..]);
    }
  }

  /** A list is determined by its bytes. */
  lemma {:induction false} EncodedInjective(s: seq<Wire>, t: seq<Wire>)
    requires AreWires(s) && AreWires(t) && Encoded(s) == Encoded(t) && |Encoded(s)| < UINT64
    ensures s == t
  {
    hide FieldAt, WireBytes, IsWire;
    EncodedLength(s);
    EncodedLength(t);
    if s != [] && t != [] {
      PlaceEnds(s);
      PlaceEnds(t);
      ListReads(s, 0);
      ListReads(t, 0);
      assert WireBytes(s[0]) == WireBytes(t[0]);
      assert Encoded(s[1..]) == Encoded(s)[|WireBytes(s[0])|..] == Encoded(t[1..]);
      EncodedInjective(s[1..], t[1..]);
      assert s == [s[0]] + s[1..] && t == [t[0]] + t[1..];
    } else {
      WiresNotEmpty(s);
      WiresNotEmpty(t);
    }
  }

  lemma WiresNotEmpty(s: seq<Wire>)
    ensures Encoded(s) == [] <==> s == []
  {
    EncodedLength(s);
  }
}

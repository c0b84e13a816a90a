/** Payment details with the bytes that bitcoin/BRPaymentProtocol.c writes for them, and what its smallest readers
    do on any buffer. */
module PaymentVector {
  import opened Wrappers
  import opened Bytes
  import opened ProtoBuf
  import opened UnknownFields
  import opened PaymentProtocol

  // ----- bytes

  /** What is written of a string ends before its first zero byte. */
  lemma {:induction false} CStringExactly(s: seq<Byte>, r: seq<Byte>)
    ensures r == CString(s) <==> r <= s && 0 !in r && (|r| < |s| ==> s[|r|] == 0)
  {
    if s != [] && s[0] != 0 {
      if r != [] {
        CStringExactly(s[1..], r[1..]);
        assert r == [r[0]] + r[1..];
        assert r <= s <==> r[0] == s[0] && r[1..] <= s[1..];
      }
    } else if r != [] {
      assert r[0] in r;
    }
  }

  /** Details for the test network: one output of 300, times 1 and 200, memo "hi", URL "u", and one byte of data. */
  const EXAMPLE: Details :=
    Details([116, 101, 115, 116], false, [Output(300, false, [0x51], [])], 1, false, 200, false,
            Some([104, 105]), Some([117]), Some([9]), [])

  lemma ExampleBytes()
    ensures DetailsBytes(EXAMPLE)
         == [0x0a, 4, 116, 101, 115, 116] + [0x12, 6, 0x08, 0xac, 0x02, 0x12, 1, 0x51] + [0x18, 1] + [0x20, 0xc8, 0x01]
            + [0x2a, 2, 104, 105] + [0x32, 1, 117] + [0x3a, 1, 9]
  {
    Numbers();
    Strings();
    OutputExample();
    assert BytesField(1, [116, 101, 115, 116]) == [0x0a, 4, 116, 101, 115, 116];
    assert BytesField(5, [104, 105]) == [0x2a, 2, 104, 105];
    assert BytesField(6, [117]) == [0x32, 1, 117];
    assert BytesField(7, [9]) == [0x3a, 1, 9];
    hide BytesField, IntField, CString, OutputsBytes;
  }

  lemma Numbers()
    ensures IntField(1, 300) == [0x08, 0xac, 0x02] && IntField(3, 1) == [0x18, 1] && IntField(4, 200) == [0x20, 0xc8, 0x01]
  {
    assert VarInt(300) == [0xac] + VarInt(2);
    assert VarInt(200) == [0xc8] + VarInt(1);
  }

  lemma Strings()
    ensures CString([116, 101, 115, 116]) == [116, 101, 115, 116] && CString([104, 105]) == [104, 105] && CString([117]) == [117]
  {
    CStringExactly([116, 101, 115, 116], [116, 101, 115, 116]);
    CStringExactly([104, 105], [104, 105]);
    CStringExactly([117], [117]);
  }

  lemma OutputExample()
    ensures OutputsBytes([Output(300, false, [0x51], [])]) == [0x12, 6, 0x08, 0xac, 0x02, 0x12, 1, 0x51]
  {
    Numbers();
    var o := Output(300, false, [0x51], []);
    assert BytesField(2, [0x51]) == [0x12, 1, 0x51];
    assert OutputBytes(o) == [0x08, 0xac, 0x02, 0x12, 1, 0x51];
    assert BytesField(2, [0x08, 0xac, 0x02, 0x12, 1, 0x51]) == [0x12, 6, 0x08, 0xac, 0x02, 0x12, 1, 0x51];
    assert [o][..0] == [];
    hide OutputBytes, BytesField;
    assert OutputsBytes([]) == [];
    assert OutputsBytes([o]) == OutputsBytes([]) + BytesField(2, OutputBytes(o));
  }

  /** Without a network the details are for the main one, and the field is left out. */
  lemma NewBytes(network: Option<seq<Byte>>, time: nat, expires: nat)
    ensures DetailsBytes(NewDetails(network, [], time, expires, None, None, None))
         == (if network.Some? then BytesField(1, CString(network.value)) else []) + IntField(3, time) + IntField(4, expires)
    ensures network.None? ==> NewDetails(network, [], time, expires, None, None, None).network == [109, 97, 105, 110]
  {
    hide BytesField, IntField, CString;
  }

  // ----- buffers

  /** A string is replaced by the bytes of its field if they are all there, and by nothing if its length is zero;
      it stays as it is if the length runs past the buffer. */
  lemma TextExactly(data: Buffer, before: Option<seq<Byte>>, after: Option<seq<Byte>>)
    ensures Text(data, before) == Some(after)
       <==> || (IsWhole(data) && after == Some(data.mem.value))
            || (data.mem.None? && after == if data.len == 0 then Some([]) else before)
    ensures Copied(data) == Some(after) <==> (IsWhole(data) && after == Some(data.mem.value)) || (data.mem.None? && after == None)
  {
  }

  /** One of the first ten bytes from `off` ends an integer. */
  predicate EndsSoon(mem: seq<Byte>, off: nat) {
    exists k :: off <= k < off + 10 && k < |mem| && mem[k] < 128
  }

  lemma {:induction false} LengthExactly(buf: seq<Byte>, n: nat)
    ensures n == VarIntLength(buf)
       <==> && n <= |buf| && (buf != [] ==> n > 0) && (forall k :: 0 <= k < n - 1 ==> buf[k] >= 128)
            && (0 < n < |buf| ==> buf[n - 1] < 128)
    ensures IsTerminated(buf) <==> buf != [] && buf[VarIntLength(buf) - 1] < 128
  {
    if buf != [] && buf[0] >= 128 {
      LengthExactly(buf[1..], if n > 0 then n - 1 else 0);
      assert forall k :: 0 < k < |buf| ==> buf[k] == buf[1..][k - 1];
    }
  }

  /** An integer cannot be read exactly if the promised length leads past the memory, or past ten bytes. */
  lemma UnreadExactly(b: Buffer, off: nat)
    requires IsBuffer(b)
    ensures VarIntAt(b, off).None?
       <==> b.mem.Some? && off < b.len && !EndsSoon(b.mem.value, off) && (|b.mem.value| < b.len || off + 10 < |b.mem.value|)
  {
    if b.mem.Some? && off < b.len && off < |b.mem.value| {
      var mem := b.mem.value;
      var rest := mem[off..];
      var n := VarIntLength(rest);
      hide VarIntLength, IsTerminated;
      LengthExactly(rest, n);
      assert forall k :: off <= k < |mem| ==> mem[k] == rest[k - off];
      assert mem[off + n - 1] == rest[n - 1];
      if !(IsTerminated(rest) && n <= 10) {
        assert forall k :: off <= k < off + 10 && k < |mem| ==> mem[k] >= 128;
      }
    }
  }

  /** One that the end of the buffer cuts off counts as zero, and one that is ended is read to its end. */
  lemma CutIsZero(b: Buffer, off: nat)
    requires IsBuffer(b) && b.mem.Some? && off < b.len && VarIntAt(b, off).Some?
    ensures var (i, o) := VarIntAt(b, off).value;
            if EndsSoon(b.mem.value, off)
            then off < o <= off + 10 && b.mem.value[o - 1] < 128 && forall k :: off <= k < o - 1 ==> b.mem.value[k] >= 128
            else i == 0 && o == b.len
  {
    var mem := b.mem.value;
    var rest := mem[off..];
    var n := VarIntLength(rest);
    hide VarIntLength, IsTerminated, Spelled;
    LengthExactly(rest, n);
    assert forall k :: off <= k < |mem| ==> mem[k] == rest[k - off];
    if IsTerminated(rest) {
      assert mem[off + n - 1] == rest[n - 1];
    } else {
      assert forall k :: off <= k < |mem| ==> mem[k] >= 128;
    }
  }

  /** A field's data are NULL if and only if there is no buffer or they run past its length, by a sum of 64 bits; where
      they are whole they are the bytes at the offset. */
  lemma DataExactly(b: Buffer, off: nat, n: nat)
    requires IsBuffer(b) && n < UINT64 && (b.mem.Some? ==> off <= |b.mem.value|)
    ensures var data := DataAt(b, off, n);
            && data.len == n
            && (data.mem.None? <==> b.mem.None? || (off + n) % 0x1_0000_0000_0000_0000 > b.len)
            && (IsWhole(data) <==> data.mem.Some? && off + n <= |b.mem.value|)
            && (IsWhole(data) ==> data.mem.value == b.mem.value[off..off + n])
  {
  }

  /** An integer of eight or four bytes is zero if it runs past the length, and unreadable if it runs past the memory. */
  lemma FixedExactly(b: Buffer, off: nat, size: nat)
    requires IsBuffer(b) && size <= 8 && off + size < 0x1_0000_0000_0000_0000
    ensures var r := FixedAt(b, off, size);
            if b.mem.None? || off + size > b.len then r == Some((0, off + size))
            else if off + size > |b.mem.value| then r == None
            else r.Some? && r.value.1 == off + size && ToLE(r.value.0, size) == b.mem.value[off..off + size]
  {
    if b.mem.Some? && off + size <= |b.mem.value| {
      ToFromLE(b.mem.value[off..off + size]);
    }
  }

  // ----- copies

  /** The copy of a field of eight or four bytes is whole if its key is short; it is lost if the key leaves bytes of
      the copy unwritten; and only a key of ten bytes is all that is kept. */
  lemma FixedCopy(room: nat, key: nat, i: nat, data: Buffer, n: nat)
    requires (key % 8 == FIXED64 && n == 8) || (key % 8 == FIXED32 && n == 4)
    ensures var copy := Packed(room, key, i, data);
            if |VarInt(key)| + n <= 10 then copy == Some(VarInt(key) + ToLE(i, n))
            else if |VarInt(key)| < 10 then copy == None
            else copy == Some(VarInt(key)[..10])
  {
    hide VarInt, ToLE;
    var v := VarInt(key) + ToLE(i, n);
    assert v[..|v|] == v;
  }

  /** The copy of a string of bytes that are all there is cut after as many bytes as it has and ten. */
  lemma DataCopy(room: nat, key: nat, i: nat, data: Buffer)
    requires key % 8 == LENDELIM && IsWhole(data) && data.len + 10 < UINT64
    requires data.len + 10 <= 0x1000 || data.len + 10 <= room
    requires |VarInt(key)| + |VarInt(data.len)| + data.len < UINT64
    ensures var head := VarInt(key) + VarInt(data.len);
            var copy := Packed(room, key, i, data);
            if |head| <= 10 then copy == Some(head + data.mem.value)
            else if |head| < 10 + data.len then copy == None
            else copy == Some(head[..10 + data.len])
  {
    var head := VarInt(key) + VarInt(data.len);
    hide VarInt, KeptData;
    assert Packed(room, key, i, data) == KeptData(head, data, 10 + data.len);
    DataKept(head, data);
  }

  lemma DataKept(head: seq<Byte>, data: Buffer)
    requires IsWhole(data) && |head| + data.len < UINT64
    ensures var copy := KeptData(head, data, 10 + data.len);
            if |head| <= 10 then copy == Some(head + data.mem.value)
            else if |head| < 10 + data.len then copy == None
            else copy == Some(head[..10 + data.len])
  {
    assert (head + data.mem.value)[..|head| + data.len] == head + data.mem.value;
  }

  /** There is none if it needs more than the stack's limit and more than there is room for. */
  lemma NoRoom(room: nat, key: nat, i: nat, data: Buffer)
    requires key % 8 == LENDELIM && data.len + 10 < UINT64
    ensures data.len + 10 > 0x1000 && data.len + 10 > room ==> Packed(room, key, i, data) == None
  {
  }
}

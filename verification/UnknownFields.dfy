/** The copies kept of unknown fields, bitcoin/BRPaymentProtocol.c. */
module UnknownFields {
  import opened Wrappers
  import opened Bytes
  import opened ProtoBuf
  import opened OffsetLoops

  // ----- the copy of one field

  /** What is kept of a scratch buffer of `size` bytes into which `written` went while the cursor came to
      `off`; `None` if some of it was never written. */
  function Kept(written: seq<Byte>, off: nat, size: nat): Option<seq<Byte>> {
    var n := if off < size then off else size;
    if n <= |written| then Some(written[..n]) else None
  }

  function KeptFixed(head: seq<Byte>, v: seq<Byte>, size: nat): Option<seq<Byte>> {
    Kept(if |head| + |v| <= size then head + v else head, |head| + |v|, size)
  }

  function Given(data: Buffer): seq<Byte> {
    if data.mem.Some? then data.mem.value else []
  }

  function KeptData(head: seq<Byte>, data: Buffer, size: nat): Option<seq<Byte>> {
    var off := (|head| + data.len) % UINT64;
    if off > size then Kept(head, off, size)
    else if |head| + data.len <= size && |Given(data)| == data.len then Kept(head + Given(data), off, size)
    else None
  }

  function ScratchSize(key: nat, len: nat): nat {
    if key % 8 == LENDELIM then (10 + len) % UINT64 else 10
  }

  /** The copy of a field.  `room` is the size up to which `malloc` finds memory. */
  function Packed(room: nat, key: nat, i: nat, data: Buffer): Option<seq<Byte>> {
    var size := ScratchSize(key, data.len);
    if size > 0x1000 && size > room then None
    else if key % 8 == VARINT then Kept(VarInt(key) + VarInt(i), |VarInt(key)| + |VarInt(i)|, size)
    else if key % 8 == FIXED64 then KeptFixed(VarInt(key), ToLE(i, 8), size)
    else if key % 8 == FIXED32 then KeptFixed(VarInt(key), ToLE(i, 4), size)
    else if key % 8 == LENDELIM && (data.mem.Some? || data.len == 0) then KeptData(VarInt(key) + VarInt(data.len), data, size)
    else Kept(VarInt(key), |VarInt(key)|, size)
  }

  /** There is memory for the copy. */
  predicate HasRoom(room: nat, w: Wire) {
    w.data.Some? ==> |w.data.value| + 20 < UINT64 && (|w.data.value| + 10 <= 0x1000 || |w.data.value| + 10 <= room)
  }

  /** And the header fits ten bytes. */
  predicate IsStorable(room: nat, w: Wire) { HasRoom(room, w) && |WireHead(w)| <= 10 }

  lemma KeptWhole(written: seq<Byte>, size: nat)
    ensures Kept(written, |written|, size) == Some(written) <==> |written| <= size
  {
    assert written[..|written|] == written;
  }

  lemma KeptFixedWhole(head: seq<Byte>, v: seq<Byte>, size: nat)
    requires v != []
    ensures KeptFixed(head, v, size) == Some(head + v) <==> |head + v| <= size
  {
    KeptWhole(head + v, size);
    if |head + v| > size {
      assert KeptFixed(head, v, size).Some? ==> |KeptFixed(head, v, size).value| == size;
    }
  }

  lemma KeptDataWhole(head: seq<Byte>, data: seq<Byte>)
    requires |head| <= 20 && |data| + 20 < UINT64
    ensures KeptData(head, Whole(data), 10 + |data|) == Some(head + data) <==> |head| <= 10
  {
    KeptWhole(head + data, 10 + |data|);
    if |head| > 10 {
      var k := KeptData(head, Whole(data), 10 + |data|);
      assert k.Some? ==> |k.value| == 10 + |data|;
    }
  }

  /** The copy is the field itself if and only if its header fits ten bytes; otherwise it is cut off, or
      holds bytes never written. */
  lemma PackedExactly(room: nat, w: Wire, len: nat)
    requires IsWire(w) && HasRoom(room, w)
    ensures Packed(room, w.key, w.i, DataOf(w, len)) == Some(WireBytes(w)) <==> |WireHead(w)| <= 10
  {
    hide VarInt, ToLE, Kept, KeptFixed, KeptData;
    var head := VarInt(w.key);
    AtMostTen(w.key);
    if w.data.Some? {
      AtMostTen(|w.data.value|);
      KeptDataWhole(WireHead(w), w.data.value);
    } else {
      KeptFixedWhole(head, ToLE(w.i, 8), 10);
      KeptFixedWhole(head, ToLE(w.i, 4), 10);
      KeptWhole(head + VarInt(w.i), 10);
      KeptWhole(head, 10);
      assert head + [] == head;
    }
  }

  /** The first half of `_ProtoBufUnknown`, writing to a scratch buffer.  The count of bytes written has no
      counterpart in the source, which keeps what it never wrote. */
  method Pack(room: nat, key: nat, i: nat, data: Buffer) returns (r: Option<seq<Byte>>)
    requires IsBuffer(data)
    ensures r == Packed(room, key, i, data)
  {
    hide VarInt, ToLE, Kept, Holds, Covers;
    var size := ScratchSize(key, data.len);
    if size > 0x1000 && size > room {
      return None;
    }
    var buf := new Byte[size];
    assert Holds(buf, 0, []) && Covers(buf, []) by {
      NothingHeld(buf);
    }
    ghost var head := VarInt(key);
    assert [] + head == head;
    var off := SetVarInt(buf, key, 0, []);
    assert off == |head| by {
      HeldLength(buf, off, head);
    }
    if key % 8 == VARINT {
      off := SetVarInt(buf, i, off, head);
      HeldLength(buf, off, head + VarInt(i));
      r := TakeKept(buf, off, off, head + VarInt(i));
    } else if key % 8 == FIXED64 {
      r := PackFixed(buf, ToLE(i, 8), off, head);
    } else if key % 8 == FIXED32 {
      r := PackFixed(buf, ToLE(i, 4), off, head);
    } else if key % 8 == LENDELIM && (data.mem.Some? || data.len == 0) {
      off := SetVarInt(buf, data.len, off, head);
      r := PackData(buf, data, off, head + VarInt(data.len));
    } else {
      r := TakeKept(buf, off, off, head);
    }
  }

  lemma NothingHeld(buf: array<Byte>)
    ensures Holds(buf, 0, []) && Covers(buf, [])
  {
  }

  lemma HeldLength(buf: array<Byte>, off: nat, s: seq<Byte>)
    requires Holds(buf, off, s)
    ensures off == |s|
  {
  }

  /** The bytes kept of the scratch buffer. */
  method TakeKept(buf: array<Byte>, written: nat, off: nat, ghost done: seq<Byte>) returns (r: Option<seq<Byte>>)
    requires Covers(buf, done) && written == |done|
    ensures r == Kept(done, off, buf.Length)
  {
    var n := if off < buf.Length then off else buf.Length;
    if n > written {
      return None;
    }
    assert buf[..n] == done[..n];
    r := Some(buf[..n]);
  }

  /** `_ProtoBufSetFixed`. */
  method PackFixed(buf: array<Byte>, v: seq<Byte>, off0: nat, ghost head: seq<Byte>) returns (r: Option<seq<Byte>>)
    requires Holds(buf, off0, head) && Covers(buf, head)
    modifies buf
    ensures r == KeptFixed(head, v, buf.Length)
  {
    hide Kept;
    var off := SetData(buf, v, off0, head);
    if off <= buf.Length {
      assert forall k :: 0 <= k < off ==> buf[k] == buf[..off][k];
      r := TakeKept(buf, off, off, head + v);
    } else {
      assert forall k :: 0 <= k < buf.Length ==> buf[k] == buf[..][k];
      r := TakeKept(buf, off0, off, head);
    }
  }

  /** `_ProtoBufSetLenDelim` after the length. */
  method PackData(buf: array<Byte>, data: Buffer, off0: nat, ghost head: seq<Byte>) returns (r: Option<seq<Byte>>)
    requires Holds(buf, off0, head) && Covers(buf, head)
    modifies buf
    ensures r == KeptData(head, data, buf.Length)
  {
    hide Kept;
    var next := (off0 + data.len) % UINT64;
    if next > buf.Length {
      r := TakeKept(buf, off0, next, head);
    } else if off0 + data.len > buf.Length || |Given(data)| != data.len {
      r := None;
    } else {
      var off := SetData(buf, Given(data), off0, head);
      assert forall k :: 0 <= k < off ==> buf[k] == buf[..off][k];
      r := TakeKept(buf, off, next, head + Given(data));
    }
  }

  // ----- where it goes

  /** The array of copies, and where the last field read in it starts. */
  datatype Slot = Slot(u: seq<Byte>, o: nat)

  /** One turn of the loop over the array: an equal key is taken out, and one not below ends the loop. */
  function StoreTurn(u: seq<Byte>, key: nat, off: nat): Option<(nat, Slot)>
    requires off < |u| < UINT64
  {
    match FieldAt(Whole(u), off)
    case None => None
    case Some(t) =>
      if t.key == key then
        if off <= t.off <= |u| then Some((|u|, Slot(u[..off] + u[t.off..], off))) else None
      else Some((if t.key > key then |u| else t.off, Slot(u, off)))
  }

  function StoreStep(u: seq<Byte>, key: nat): Step<Slot> {
    (off: nat, s: Slot) => if off < |u| < UINT64 then StoreTurn(u, key, off) else None
  }

  /** The array with a copy inserted. */
  function Stored(u: seq<Byte>, key: nat, copy: seq<Byte>): Option<seq<Byte>> {
    match Result(|u|, StoreStep(u, key), Slot(u, 0))
    case None => None
    case Some(s) => if s.o <= |s.u| then Some(s.u[..s.o] + copy + s.u[s.o..]) else None
  }

  /** `_ProtoBufUnknown`; `None` if it does not come back. */
  function Keep(room: nat, u: seq<Byte>, key: nat, i: nat, data: Buffer): Option<seq<Byte>> {
    match Packed(room, key, i, data) case None => None case Some(copy) => Stored(u, key, copy)
  }

  /** `_ProtoBufUnknown`.  The source does not count its turns; what the count leaves undecided never ends. */
  method StoreUnknown(room: nat, u: seq<Byte>, key: nat, i: nat, data: Buffer) returns (r: Option<seq<Byte>>)
    requires IsBuffer(data)
    ensures r == Keep(room, u, key, i, data)
  {
    hide Packed, FieldAt;
    var copy := Pack(room, key, i, data);
    if copy.None? || |u| >= UINT64 {
      return None;
    }
    var count: nat, kept: seq<Byte>, off: nat, o: nat := |u|, u, 0, 0;
    while off < |u|
      invariant off < |u| ==> kept == u
      invariant Turns(|u|, StoreStep(u, key), off, Slot(kept, o), count) == Turns(|u|, StoreStep(u, key), 0, Slot(u, 0), |u|)
      decreases count
    {
      if count == 0 {
        return None;
      }
      o := off;
      var t := ReadFieldAt(Whole(u), off);
      if t.None? {
        return None;
      }
      off := t.value.off;
      if t.value.key == key {
        if !(o <= off <= |u|) {
          return None;
        }
        kept := u[..o] + u[off..];
      }
      if t.value.key >= key {
        off := |u|;
      }
      count := count - 1;
    }
    r := if o <= |kept| then Some(kept[..o] + copy.value + kept[o..]) else None;
  }

  function StoreNextAt(u: seq<Byte>, key: nat, off: nat): nat {
    if off < |u| < UINT64 && StoreTurn(u, key, off).Some? then StoreTurn(u, key, off).value.0 else 0
  }

  function StoreNext(u: seq<Byte>, key: nat): nat -> nat {
    (off: nat) => StoreNextAt(u, key, off)
  }

  /** The turns counted are all that matter: the loop of the source is left if and only if it is within them. */
  lemma StoreDecided(u: seq<Byte>, key: nat, s: Slot)
    ensures Leaves(|u|, StoreStep(u, key), Slot(u, 0), s) <==> Result(|u|, StoreStep(u, key), Slot(u, 0)) == Some(s)
  {
    hide StoreTurn;
    Decided(|u|, StoreStep(u, key), StoreNext(u, key), Slot(u, 0), s);
  }

  // ----- lists of copies

  /** The first field whose key is not below `key`. */
  function FirstAt(s: seq<Wire>, key: nat): (j: nat)
    ensures j <= |s| && (forall k :: 0 <= k < j ==> s[k].key < key) && (j < |s| ==> s[j].key >= key)
  {
    if s == [] || s[0].key >= key then 0 else 1 + FirstAt(s[1..], key)
  }

  /** The fields with a new one: in place of the first of its key, before the first key above, or, above all,
      before the last field. */
  function With(s: seq<Wire>, w: Wire): seq<Wire> {
    var j := FirstAt(s, w.key);
    if j < |s| && s[j].key == w.key then s[..j] + [w] + s[j + 1..]
    else if j < |s| || s == [] then s[..j] + [w] + s[j..]
    else s[..j - 1] + [w] + s[j - 1..]
  }

  /** The slot the loop finds. */
  function Found(s: seq<Wire>, key: nat): Slot {
    var j := FirstAt(s, key);
    if j < |s| && s[j].key == key then Slot(Encoded(s[..j]) + Encoded(s[j + 1..]), Place(s, j))
    else if j < |s| || s == [] then Slot(Encoded(s), Place(s, j))
    else Slot(Encoded(s), Place(s, j - 1))
  }

  lemma TakenOut(s: seq<Wire>, j: nat)
    requires j < |s|
    ensures Place(s, j) <= Place(s, j + 1) <= |Encoded(s)|
    ensures Encoded(s)[..Place(s, j)] + Encoded(s)[Place(s, j + 1)..] == Encoded(s[..j]) + Encoded(s[j + 1..])
  {
    hide Encoded, WireBytes, Spells;
    PlaceStep(s, j);
    EncodedSplit(s, j);
    EncodedSplit(s, j + 1);
  }

  lemma {:induction false} LoopFinds(s: seq<Wire>, key: nat, j: nat, o: nat, n: nat)
    requires AreWires(s) && |Encoded(s)| < UINT64 && j <= FirstAt(s, key) && n >= |s| - j
    requires o == if j == 0 then 0 else Place(s, j - 1)
    ensures Turns(|Encoded(s)|, StoreStep(Encoded(s), key), Place(s, j), Slot(Encoded(s), o), n) == Returned(Found(s, key))
    decreases |s| - j
  {
    hide Encoded, FieldAt, Place;
    PlaceEnds(s);
    if j < |s| {
      ListReads(s, j);
      TakenOut(s, j);
      if s[j].key < key {
        LoopFinds(s, key, j + 1, Place(s, j), n - 1);
      }
    }
  }

  /** In an array of fields the loop is always left. */
  lemma StoreFinds(s: seq<Wire>, key: nat)
    requires AreWires(s) && |Encoded(s)| < UINT64
    ensures Result(|Encoded(s)|, StoreStep(Encoded(s), key), Slot(Encoded(s), 0)) == Some(Found(s, key))
  {
    hide Encoded, StoreStep, Turns, Found;
    PlaceEnds(s);
    EncodedLength(s);
    LoopFinds(s, key, 0, 0, |Encoded(s)|);
  }

  /** Inserting there gives the bytes of the list with the new field. */
  lemma WithBytes(s: seq<Wire>, w: Wire)
    ensures var f := Found(s, w.key);
            f.o <= |f.u| && f.u[..f.o] + WireBytes(w) + f.u[f.o..] == Encoded(With(s, w))
  {
    hide Encoded, WireBytes;
    var j := FirstAt(s, w.key);
    if j < |s| && s[j].key == w.key {
      Inserted(s[..j], w, s[j + 1..]);
    } else {
      var i := if j < |s| || s == [] then j else j - 1;
      EncodedSplit(s, i);
      Inserted(s[..i], w, s[i..]);
    }
  }

  /** Storing a copy in an array of fields comes back with the fields of `With`. */
  lemma StoreEncoded(s: seq<Wire>, w: Wire)
    requires AreWires(s) && |Encoded(s)| < UINT64
    ensures Stored(Encoded(s), w.key, WireBytes(w)) == Some(Encoded(With(s, w)))
  {
    hide Encoded, WireBytes, StoreStep, Result, With, Found;
    StoreFinds(s, w.key);
    WithBytes(s, w);
  }

  /** Whatever is stored under a key below all others goes to the front. */
  lemma StoreFirst(s: seq<Wire>, key: nat, copy: seq<Byte>)
    requires AreWires(s) && |Encoded(s)| < UINT64 && s != [] && s[0].key > key
    ensures Stored(Encoded(s), key, copy) == Some(copy + Encoded(s))
  {
    hide Encoded, StoreStep, Result;
    StoreFinds(s, key);
    PlaceEnds(s);
    var u := Encoded(s);
    assert u[..0] + copy + u[0..] == copy + u;
  }

  lemma Inserted(a: seq<Wire>, w: Wire, b: seq<Wire>)
    ensures var u := Encoded(a) + Encoded(b);
            u[..|Encoded(a)|] + WireBytes(w) + u[|Encoded(a)|..] == Encoded(a + [w] + b)
  {
    hide Encoded, WireBytes;
    EncodedOne(w);
    EncodedAppend(a, [w]);
    EncodedAppend(a + [w], b);
  }

  /** Storing a field that fits: the copy is the field, and it goes where `With` puts it. */
  lemma KeepEncoded(room: nat, s: seq<Wire>, w: Wire, len: nat)
    requires AreWires(s) && |Encoded(s)| < UINT64
    requires IsWire(w) && IsStorable(room, w)
    ensures Keep(room, Encoded(s), w.key, w.i, DataOf(w, len)) == Some(Encoded(With(s, w)))
  {
    hide Packed, Stored, Encoded, WireBytes, With, WireHead, IsWire;
    PackedExactly(room, w, len);
    StoreEncoded(s, w);
  }

  lemma KeepFirst(room: nat, s: seq<Wire>, key: nat, i: nat, data: Buffer, copy: seq<Byte>)
    requires AreWires(s) && |Encoded(s)| < UINT64 && s != [] && s[0].key > key
    requires Packed(room, key, i, data) == Some(copy)
    ensures Keep(room, Encoded(s), key, i, data) == Some(copy + Encoded(s))
  {
    hide Packed, Encoded, Stored;
    StoreFirst(s, key, copy);
  }

  // ----- what becomes of the fields

  predicate Ascend(s: seq<Wire>) { forall i, j :: 0 <= i < j < |s| ==> s[i].key < s[j].key }

  predicate HasKey(s: seq<Wire>, key: nat) { exists j :: 0 <= j < |s| && s[j].key == key }

  /** A field whose key is new is added and nothing is lost. */
  lemma WithConserves(s: seq<Wire>, w: Wire)
    requires !HasKey(s, w.key)
    ensures multiset(With(s, w)) == multiset(s) + multiset{w}
  {
    var j := FirstAt(s, w.key);
    var i := if j < |s| || s == [] then j else j - 1;
    assert With(s, w) == s[..i] + [w] + s[i..];
    assert s == s[..i] + s[i..];
  }

  /** In ascending order, a field whose key is there takes the place of the old one and nothing else changes. */
  lemma WithReplaces(s: seq<Wire>, w: Wire, j: nat)
    requires Ascend(s) && j < |s| && s[j].key == w.key
    ensures With(s, w) == s[j := w]
  {
    assert FirstAt(s, w.key) == j;
  }

  /** But the order is kept if and only if the new key is not above all others: a greater one goes before
      the last field instead of behind it. */
  lemma WithAscends(s: seq<Wire>, w: Wire)
    requires Ascend(s)
    ensures Ascend(With(s, w)) <==> s == [] || w.key <= s[|s| - 1].key
  {
    var j := FirstAt(s, w.key);
    var r := With(s, w);
    if s != [] && w.key > s[|s| - 1].key {
      assert r[|s|] == s[|s| - 1] && r[|s| - 1] == w;
    }
  }

  /** The fields left of a list that is stored one after the other. */
  function Rearranged(s: seq<Wire>): seq<Wire> {
    if s == [] then [] else With(Rearranged(s[..|s| - 1]), s[|s| - 1])
  }

  predicate KeysDiffer(s: seq<Wire>) { forall i, j :: 0 <= i < j < |s| ==> s[i].key != s[j].key }

  lemma NewKey(s: seq<Wire>, a: seq<Wire>)
    requires s != [] && KeysDiffer(s) && multiset(a) == multiset(s[..|s| - 1])
    ensures |a| == |s| - 1 && !HasKey(a, s[|s| - 1].key)
  {
    var n := |s| - 1;
    assert |multiset(a)| == |a|;
    forall j | 0 <= j < |a| ensures a[j].key != s[n].key {
      assert a[j] in multiset(a);
      var i :| 0 <= i < n && s[..n][i] == a[j];
    }
  }

  /** With different keys no field is lost. */
  lemma {:induction false} RearrangedConserves(s: seq<Wire>)
    requires KeysDiffer(s)
    ensures multiset(Rearranged(s)) == multiset(s)
  {
    hide With;
    if s != [] {
      var n := |s| - 1;
      RearrangedConserves(s[..n]);
      assert s == s[..n] + [s[n]];
      NewKey(s, Rearranged(s[..n]));
      WithConserves(Rearranged(s[..n]), s[n]);
    }
  }

  /** But their order is kept if and only if there is at most one. */
  lemma RearrangedOrder(s: seq<Wire>)
    requires KeysDiffer(s)
    ensures Rearranged(s) == s <==> |s| <= 1
  {
    if |s| == 1 {
      assert s[..0] == [];
    } else if |s| > 1 {
      hide With, Rearranged;
      var n := |s| - 1;
      var a := Rearranged(s[..n]);
      RearrangedConserves(s[..n]);
      NewKey(s, a);
      LastStays(a, s[n]);
      RearrangedStep(s);
    }
  }

  lemma RearrangedStep(s: seq<Wire>)
    requires s != []
    ensures Rearranged(s) == With(Rearranged(s[..|s| - 1]), s[|s| - 1])
  {
  }

  /** What is last stays last, unless it has the new key. */
  lemma LastStays(s: seq<Wire>, w: Wire)
    requires s != [] && s[|s| - 1].key != w.key
    ensures With(s, w)[|With(s, w)| - 1] == s[|s| - 1]
  {
  }

  /** Three fields in ascending order end in another one. */
  lemma OrderExample()
    ensures Rearranged([IntWire(7, 0), IntWire(8, 0), IntWire(9, 0)]) == [IntWire(8, 0), IntWire(9, 0), IntWire(7, 0)]
  {
    var a, b, c := IntWire(7, 0), IntWire(8, 0), IntWire(9, 0);
    assert [a, b, c][..2] == [a, b] && [a, b][..1] == [a] && [a][..0] == [];
    assert Rearranged([a]) == [a];
    assert Rearranged([a, b]) == [b, a];
    assert [b, a][1..] == [a];
    assert With([b, a], c) == [b, c, a];
  }

  lemma WithWires(s: seq<Wire>, w: Wire)
    requires AreWires(s) && IsWire(w)
    ensures AreWires(With(s, w)) && |Encoded(With(s, w))| <= |Encoded(s)| + |WireBytes(w)|
  {
    hide Encoded, WireBytes, IsWire;
    var j := FirstAt(s, w.key);
    var i := if j < |s| || s == [] then j else j - 1;
    EncodedSplit(s, i);
    Inserted(s[..i], w, s[i..]);
    if j < |s| {
      EncodedSplit(s, j + 1);
      PlaceStep(s, j);
      Inserted(s[..j], w, s[j + 1..]);
    }
  }

  lemma {:induction false} RearrangedWires(s: seq<Wire>)
    requires AreWires(s)
    ensures AreWires(Rearranged(s)) && |Encoded(Rearranged(s))| <= |Encoded(s)|
  {
    hide Encoded, WireBytes, IsWire, With;
    if s != [] {
      var n := |s| - 1;
      RearrangedWires(s[..n]);
      WithWires(Rearranged(s[..n]), s[n]);
      EncodedAppend(s[..n], [s[n]]);
      EncodedOne(s[n]);
      assert s[..n] + [s[n]] == s;
    }
  }
}

/** Cashaddr strings, bcash/BRBCashAddr.c: 21 bytes as 34 five-bit symbols with a checksum. */
module CashAddr {
  import opened Wrappers
  import opened CashChecksum

  // ----- five bits out of eight

  function At(s: seq<bv8>, k: int): bv8 {
    if 0 <= k < |s| then s[k] else 0
  }

  /** The five bits that start `x` bits before the end of `a` and continue in `b`. */
  function Across(a: bv8, b: bv8, x: nat): bv8
    requires x <= 4
  {
    if x == 0 then (b >> 3) & 0x1f
    else if x == 1 then ((a << 4) | (b >> 4)) & 0x1f
    else if x == 2 then ((a << 3) | (b >> 5)) & 0x1f
    else if x == 3 then ((a << 2) | (b >> 6)) & 0x1f
    else ((a << 1) | (b >> 7)) & 0x1f
  }

  /** The five bits of `b` after its first `5 - x`. */
  function Within(b: bv8, x: nat): bv8
    requires 2 <= x <= 4
  {
    if x == 2 then b & 0x1f else if x == 3 then (b >> 1) & 0x1f else (b >> 2) & 0x1f
  }

  /** Symbol `k` of the bit string `data`, which is continued with zeros. */
  function Symbol(data: seq<bv8>, k: nat): bv8 {
    var q := k / 8 * 5;
    match k % 8
    case 0 => Across(At(data, q - 1), At(data, q), 0)
    case 1 => Across(At(data, q), At(data, q + 1), 3)
    case 2 => Within(At(data, q + 1), 3)
    case 3 => Across(At(data, q + 1), At(data, q + 2), 1)
    case 4 => Across(At(data, q + 2), At(data, q + 3), 4)
    case 5 => Within(At(data, q + 3), 4)
    case 6 => Across(At(data, q + 3), At(data, q + 4), 2)
    case _ => Within(At(data, q + 4), 2)
  }

  function Symbols(data: seq<bv8>): (s: seq<bv8>)
    ensures |s| == 34 && forall k :: 0 <= k < 34 ==> s[k] == Symbol(data, k)
  {
    seq(34, k requires 0 <= k < 34 => Symbol(data, k))
  }

  // ----- eight bits out of five

  /** What a symbol adds to the byte its first bit falls into, at bit `x` of it. */
  function High(c: bv8, x: nat): bv8
    requires x < 8
  {
    if x == 0 then c << 3 else if x == 1 then (c << 3) >> 1 else if x == 2 then (c << 3) >> 2 else if x == 3 then (c << 3) >> 3
    else if x == 4 then (c << 3) >> 4 else if x == 5 then (c << 3) >> 5 else if x == 6 then (c << 3) >> 6 else (c << 3) >> 7
  }

  /** What it adds to the byte after that. */
  function Low(c: bv8, x: nat): bv8
    requires 3 < x < 8
  {
    if x == 4 then c << 7 else if x == 5 then c << 6 else if x == 6 then c << 5 else c << 4
  }

  function Or(a: bv8, b: bv8): bv8 { a | b }

  function Or3(a: bv8, b: bv8, c: bv8): bv8 { Or(Or(a, b), c) }

  /** Byte `q` of the bytes that the symbols `p` spell. */
  function ByteAt(p: seq<bv8>, q: nat): bv8 {
    var k := q / 5 * 8;
    match q % 5
    case 0 => Or(High(At(p, k), 0), High(At(p, k + 1), 5))
    case 1 => Or3(Low(At(p, k + 1), 5), High(At(p, k + 2), 2), High(At(p, k + 3), 7))
    case 2 => Or(Low(At(p, k + 3), 7), High(At(p, k + 4), 4))
    case 3 => Or3(Low(At(p, k + 4), 4), High(At(p, k + 5), 1), High(At(p, k + 6), 6))
    case _ => Or(Low(At(p, k + 6), 6), High(At(p, k + 7), 3))
  }

  function BytesOf(p: seq<bv8>, n: nat): (s: seq<bv8>)
    ensures |s| == n && forall q :: 0 <= q < n ==> s[q] == ByteAt(p, q)
  {
    seq(n, q requires 0 <= q < n => ByteAt(p, q))
  }

  lemma Byte0(z: bv8, a: bv8, b: bv8)
    ensures Or(High(Across(z, a, 0), 0), High(Across(a, b, 3), 5)) == a
  {
  }

  lemma Byte1(z: bv8, a: bv8, b: bv8)
    ensures Or3(Low(Across(z, a, 3), 5), High(Within(a, 3), 2), High(Across(a, b, 1), 7)) == a
  {
  }

  lemma Byte2(z: bv8, a: bv8, b: bv8)
    ensures Or(Low(Across(z, a, 1), 7), High(Across(a, b, 4), 4)) == a
  {
  }

  lemma Byte3(z: bv8, a: bv8, b: bv8)
    ensures Or3(Low(Across(z, a, 4), 4), High(Within(a, 4), 1), High(Across(a, b, 2), 6)) == a
  {
  }

  lemma Byte4(z: bv8, a: bv8)
    ensures Or(Low(Across(z, a, 2), 6), High(Within(a, 2), 3)) == a
  {
  }

  lemma Indices(t: nat)
    ensures 8 * t / 8 == t && 8 * t % 8 == 0 && (8 * t + 1) / 8 == t && (8 * t + 1) % 8 == 1
    ensures (8 * t + 2) / 8 == t && (8 * t + 2) % 8 == 2 && (8 * t + 3) / 8 == t && (8 * t + 3) % 8 == 3
    ensures (8 * t + 4) / 8 == t && (8 * t + 4) % 8 == 4 && (8 * t + 5) / 8 == t && (8 * t + 5) % 8 == 5
    ensures (8 * t + 6) / 8 == t && (8 * t + 6) % 8 == 6 && (8 * t + 7) / 8 == t && (8 * t + 7) % 8 == 7
  {
  }

  /** The symbols of the five bytes from `5 * t`. */
  lemma BlockSymbols(data: seq<bv8>, t: nat)
    ensures Symbol(data, 8 * t) == Across(At(data, 5 * t - 1), At(data, 5 * t), 0)
    ensures Symbol(data, 8 * t + 1) == Across(At(data, 5 * t), At(data, 5 * t + 1), 3)
    ensures Symbol(data, 8 * t + 2) == Within(At(data, 5 * t + 1), 3)
    ensures Symbol(data, 8 * t + 3) == Across(At(data, 5 * t + 1), At(data, 5 * t + 2), 1)
    ensures Symbol(data, 8 * t + 4) == Across(At(data, 5 * t + 2), At(data, 5 * t + 3), 4)
    ensures Symbol(data, 8 * t + 5) == Within(At(data, 5 * t + 3), 4)
    ensures Symbol(data, 8 * t + 6) == Across(At(data, 5 * t + 3), At(data, 5 * t + 4), 2)
    ensures Symbol(data, 8 * t + 7) == Within(At(data, 5 * t + 4), 2)
  {
    hide At, Across, Within;
    Indices(t);
  }

  /** The symbols of a block spell its bytes. */
  lemma BlockRoundTrip(data: seq<bv8>, p: seq<bv8>, t: nat)
    requires forall k :: 8 * t <= k < 8 * t + 8 && k < |p| ==> p[k] == Symbol(data, k)
    ensures 8 * t + 2 <= |p| ==> ByteAt(p, 5 * t) == At(data, 5 * t)
    ensures 8 * t + 4 <= |p| ==> ByteAt(p, 5 * t + 1) == At(data, 5 * t + 1)
    ensures 8 * t + 5 <= |p| ==> ByteAt(p, 5 * t + 2) == At(data, 5 * t + 2)
    ensures 8 * t + 7 <= |p| ==> ByteAt(p, 5 * t + 3) == At(data, 5 * t + 3)
    ensures 8 * t + 8 <= |p| ==> ByteAt(p, 5 * t + 4) == At(data, 5 * t + 4)
  {
    hide Or, Or3, High, Low, Across, Within, Symbol;
    BlockSymbols(data, t);
    forall k: nat | 8 * t <= k < 8 * t + 8 && k < |p| ensures At(p, k) == Symbol(data, k) {
    }
    BlockBytes(p, t);
    hide At;
    Byte0(At(data, 5 * t - 1), At(data, 5 * t), At(data, 5 * t + 1));
    Byte1(At(data, 5 * t), At(data, 5 * t + 1), At(data, 5 * t + 2));
    Byte2(At(data, 5 * t + 1), At(data, 5 * t + 2), At(data, 5 * t + 3));
    Byte3(At(data, 5 * t + 2), At(data, 5 * t + 3), At(data, 5 * t + 4));
    Byte4(At(data, 5 * t + 3), At(data, 5 * t + 4));
  }

  lemma BlockBytes(p: seq<bv8>, t: nat)
    ensures ByteAt(p, 5 * t) == Or(High(At(p, 8 * t), 0), High(At(p, 8 * t + 1), 5))
    ensures ByteAt(p, 5 * t + 1) == Or3(Low(At(p, 8 * t + 1), 5), High(At(p, 8 * t + 2), 2), High(At(p, 8 * t + 3), 7))
    ensures ByteAt(p, 5 * t + 2) == Or(Low(At(p, 8 * t + 3), 7), High(At(p, 8 * t + 4), 4))
    ensures ByteAt(p, 5 * t + 3) == Or3(Low(At(p, 8 * t + 4), 4), High(At(p, 8 * t + 5), 1), High(At(p, 8 * t + 6), 6))
    ensures ByteAt(p, 5 * t + 4) == Or(Low(At(p, 8 * t + 6), 6), High(At(p, 8 * t + 7), 3))
  {
    hide Or, Or3, High, Low, At;
    ByteIndices(t);
  }

  lemma ByteIndices(t: nat)
    ensures 5 * t / 5 == t && 5 * t % 5 == 0 && (5 * t + 1) / 5 == t && (5 * t + 1) % 5 == 1
    ensures (5 * t + 2) / 5 == t && (5 * t + 2) % 5 == 2 && (5 * t + 3) / 5 == t && (5 * t + 3) % 5 == 3
    ensures (5 * t + 4) / 5 == t && (5 * t + 4) % 5 == 4
  {
  }

  /** Regrouping bits into symbols and back gives the same bytes. */
  lemma RegroupRoundTrip(data: seq<bv8>)
    requires |data| == 21
    ensures BytesOf(Symbols(data), 21) == data
  {
    hide ByteAt, Symbol;
    forall q | 0 <= q < 21 ensures ByteAt(Symbols(data), q) == data[q] {
      BlockRoundTrip(data, Symbols(data), q / 5);
      assert q == 5 * (q / 5) + q % 5;
    }
  }

  // ----- the encoding loop

  /** `c = ((a << (5 - x)) | (b >> (3 + x))) & 0x1f`. */
  lemma AcrossShift(a: bv8, b: bv8, x: nat)
    requires x <= 4
    ensures ((a << (5 - x)) | (b >> (3 + x))) & 0x1f == Across(a, b, x)
    ensures x >= 2 ==> (b >> (x - 2)) & 0x1f == Within(b, x)
  {
    if x == 0 { } else if x == 1 { } else if x == 2 { } else if x == 3 { } else { }
  }

  /** The symbols written in turn `j` of the encoding loop. */
  lemma SymbolsOfTurn(data: seq<bv8>, j: nat)
    requires |data| == 21 && j <= 21
    ensures var k, x := j * 8 / 5, (j % 5) * 8 - ((j % 5) * 8 / 5) * 5;
            && 0 <= x <= 4
            && Symbol(data, k) == Across(At(data, j - 1), At(data, j), x)
            && (x >= 2 ==> Symbol(data, k + 1) == Within(At(data, j), x))
            && (j + 1) * 8 / 5 == k + (if x >= 2 then 2 else 1)
  {
    hide Across, Within, At, Symbol;
    var t, r := j / 5, j % 5;
    assert j == 5 * t + r;
    BlockSymbols(data, t);
    TurnIndex(t, r);
  }

  lemma TurnIndex(t: nat, r: nat)
    requires r < 5
    ensures (5 * t + r) * 8 / 5 == 8 * t + (if r == 0 then 0 else if r == 1 then 1 else if r == 2 then 3 else if r == 3 then 4 else 6)
    ensures (5 * t + r + 1) * 8 / 5 == 8 * t + (if r == 0 then 1 else if r == 1 then 3 else if r == 2 then 4 else if r == 3 then 6 else 8)
    ensures r * 8 - (r * 8 / 5) * 5 == if r == 0 then 0 else if r == 1 then 3 else if r == 2 then 1 else if r == 3 then 4 else 2
  {
  }

  function Widen(c: bv8): bv40 { c as bv40 }

  function WidenAll(s: seq<bv8>): (r: seq<bv40>)
    ensures |r| == |s| && forall k :: 0 <= k < |s| ==> r[k] == Widen(s[k])
  {
    seq(|s|, k requires 0 <= k < |s| => Widen(s[k]))
  }

  lemma WidenAppend(s: seq<bv8>, c: bv8)
    ensures WidenAll(s + [c]) == WidenAll(s) + [Widen(c)]
  {
    hide Widen;
  }

  /** Folding a symbol into the checksum and writing it. */
  method PushSymbol(symbols0: seq<bv8>, chk1: bv40, c: bv8, ghost chk0: bv40) returns (symbols: seq<bv8>, chk: bv40)
    requires chk1 == Fold(chk0, WidenAll(symbols0))
    ensures symbols == symbols0 + [c] && chk == Fold(chk0, WidenAll(symbols))
  {
    hide Fold, Polymod, Xor, Widen;
    FoldAppend(chk0, WidenAll(symbols0), Widen(c));
    WidenAppend(symbols0, c);
    chk := Xor(Polymod(chk1), Widen(c));
    symbols := symbols0 + [c];
  }

  /** The loop of `_BRBCashAddrEncode` over the bytes. */
  method EncodeBytes(data: seq<bv8>, chk0: bv40) returns (symbols: seq<bv8>, chk: bv40)
    requires |data| == 21
    ensures symbols == Symbols(data) && chk == Fold(chk0, WidenAll(symbols))
  {
    hide Symbol, Across, Within, Fold, Polymod, Xor, Widen, WidenAll, At;
    symbols, chk := [], chk0;
    FoldNothing(chk0);
    var b: bv8 := 0;
    BeforeStart(data);
    for j := 0 to |data| + 1
      invariant |symbols| == if j <= 21 then j * 8 / 5 else 34
      invariant forall k :: 0 <= k < |symbols| ==> symbols[k] == Symbol(data, k)
      invariant b == At(data, j - 1)
      invariant chk == Fold(chk0, WidenAll(symbols))
    {
      var a := b;
      b := if j < |data| then data[j] else 0;
      AtNext(data, j);
      SymbolsOfTurn(data, j);
      var x := (j % 5) * 8 - ((j % 5) * 8 / 5) * 5;
      AcrossShift(a, b, x);
      var c := ((a << (5 - x)) | (b >> (3 + x))) & 0x1f;
      if j < |data| || j % 5 > 0 {
        symbols, chk := PushSymbol(symbols, chk, c, chk0);
      }
      if x >= 2 {
        c := (b >> (x - 2)) & 0x1f;
      }
      if x >= 2 && j < |data| {
        symbols, chk := PushSymbol(symbols, chk, c, chk0);
      }
    }
  }

  lemma FoldNothing(chk: bv40)
    ensures Fold(chk, WidenAll([])) == chk
  {
  }

  lemma BeforeStart(data: seq<bv8>)
    ensures At(data, -1) == 0
  {
  }

  lemma AtNext(data: seq<bv8>, j: nat)
    ensures At(data, j) == if j < |data| then data[j] else 0
  {
  }

  // ----- the decoding loop

  lemma Zeros()
    ensures High(0, 0) == 0 && High(0, 5) == 0 && High(0, 2) == 0 && High(0, 7) == 0
    ensures High(0, 4) == 0 && High(0, 1) == 0 && High(0, 6) == 0 && High(0, 3) == 0
    ensures Low(0, 4) == 0 && Low(0, 5) == 0 && Low(0, 6) == 0 && Low(0, 7) == 0
  {
  }

  /** Filling in the parts of a byte one by one. */
  lemma FillTwo(a: bv8, x: bv8)
    ensures Or(x, 0) == Or(Or(0, 0), x) && Or(a, x) == Or(Or(a, 0), x)
  {
  }

  lemma FillThree(a: bv8, b: bv8, x: bv8)
    ensures Or3(x, 0, 0) == Or(Or3(0, 0, 0), x) && Or3(a, x, 0) == Or(Or3(a, 0, 0), x) && Or3(a, b, x) == Or(Or3(a, b, 0), x)
  {
  }

  /** The byte and the bit where symbol `j` begins. */
  function ByteOf(j: nat): nat { j / 8 * 5 + (j % 8) * 5 / 8 }

  function BitOf(j: nat): (x: nat)
    ensures x < 8
  {
    (j % 8) * 5 - ((j % 8) * 5 / 8) * 8
  }

  /** What storing symbol number `|p|` makes of byte `q`. */
  function Stored(p: seq<bv8>, c: bv8, q: nat): bv8 {
    var j := |p|;
    if q == ByteOf(j) then Or(ByteAt(p, q), High(c, BitOf(j)))
    else if BitOf(j) > 3 && q == ByteOf(j) + 1 then Or(ByteAt(p, q), Low(c, BitOf(j)))
    else ByteAt(p, q)
  }

  /** The byte and the bit of its block where symbol `s` of a block begins. */
  function FirstByte(s: nat): nat { if s < 2 then 0 else if s < 4 then 1 else if s == 4 then 2 else if s < 7 then 3 else 4 }

  function FirstBit(s: nat): (x: nat)
    ensures x < 8
  {
    if s == 0 then 0 else if s == 1 then 5 else if s == 2 then 2 else if s == 3 then 7
    else if s == 4 then 4 else if s == 5 then 1 else if s == 6 then 6 else 3
  }

  lemma Positions(t: nat, s: nat)
    requires s < 8
    ensures ByteOf(8 * t + s) == 5 * t + FirstByte(s) && BitOf(8 * t + s) == FirstBit(s)
  {
  }

  /** Byte `r` of a block after symbol `s` of the block has been or-ed in. */
  function Added(byte: bv8, c: bv8, s: nat, r: nat): bv8 {
    if r == FirstByte(s) then Or(byte, High(c, FirstBit(s)))
    else if FirstBit(s) > 3 && r == FirstByte(s) + 1 then Or(byte, Low(c, FirstBit(s)))
    else byte
  }

  lemma StoredAt(p: seq<bv8>, c: bv8, t: nat, s: nat, r: nat)
    requires |p| == 8 * t + s && s < 8 && r < 5
    ensures Stored(p, c, 5 * t + r) == Added(ByteAt(p, 5 * t + r), c, s, r)
  {
    hide ByteAt, Or, High, Low, ByteOf, BitOf, FirstByte, FirstBit;
    Positions(t, s);
  }

  /** In the block of the symbol stored. */
  lemma StoreInBlock(p: seq<bv8>, c: bv8, t: nat, s: nat, r: nat)
    requires |p| == 8 * t + s && s < 8 && r < 5
    ensures ByteAt(p + [c], 5 * t + r) == Stored(p, c, 5 * t + r)
  {
    hide Stored, ByteAt, Added, Or, Or3, High, Low;
    AppendedAt(p, c, t, s);
    BlockBytes(p, t);
    BlockBytes(p + [c], t);
    StoredAt(p, c, t, s, r);
    hide At;
    match r
    case 0 => Store0(At(p, 8 * t), At(p, 8 * t + 1), c, s);
    case 1 => Store1(At(p, 8 * t + 1), At(p, 8 * t + 2), At(p, 8 * t + 3), c, s);
    case 2 => Store2(At(p, 8 * t + 3), At(p, 8 * t + 4), c, s);
    case 3 => Store3(At(p, 8 * t + 4), At(p, 8 * t + 5), At(p, 8 * t + 6), c, s);
    case _ => Store4(At(p, 8 * t + 6), At(p, 8 * t + 7), c, s);
  }

  /** A symbol of a block once `c` is symbol `s`. */
  function Put(a: bv8, k: nat, c: bv8, s: nat): bv8 { if k == s then c else a }

  lemma Store0(a: bv8, b: bv8, c: bv8, s: nat)
    requires s < 8 && (s <= 0 ==> a == 0) && (s <= 1 ==> b == 0)
    ensures Or(High(Put(a, 0, c, s), 0), High(Put(b, 1, c, s), 5))
         == Added(Or(High(a, 0), High(b, 5)), c, s, 0)
  {
    hide Or, Or3, High, Low;
    Zeros();
    FillTwo(High(a, 0), High(c, 0));
    FillTwo(High(a, 0), High(c, 5));
  }

  lemma Store1(a: bv8, b: bv8, d: bv8, c: bv8, s: nat)
    requires s < 8 && (s <= 1 ==> a == 0) && (s <= 2 ==> b == 0) && (s <= 3 ==> d == 0)
    ensures Or3(Low(Put(a, 1, c, s), 5), High(Put(b, 2, c, s), 2), High(Put(d, 3, c, s), 7))
         == Added(Or3(Low(a, 5), High(b, 2), High(d, 7)), c, s, 1)
  {
    hide Or, Or3, High, Low;
    Zeros();
    FillThree(Low(a, 5), High(b, 2), Low(c, 5));
    FillThree(Low(a, 5), High(b, 2), High(c, 2));
    FillThree(Low(a, 5), High(b, 2), High(c, 7));
  }

  lemma Store2(a: bv8, b: bv8, c: bv8, s: nat)
    requires s < 8 && (s <= 3 ==> a == 0) && (s <= 4 ==> b == 0)
    ensures Or(Low(Put(a, 3, c, s), 7), High(Put(b, 4, c, s), 4))
         == Added(Or(Low(a, 7), High(b, 4)), c, s, 2)
  {
    hide Or, Or3, High, Low;
    Zeros();
    FillTwo(Low(a, 7), Low(c, 7));
    FillTwo(Low(a, 7), High(c, 4));
  }

  lemma Store3(a: bv8, b: bv8, d: bv8, c: bv8, s: nat)
    requires s < 8 && (s <= 4 ==> a == 0) && (s <= 5 ==> b == 0) && (s <= 6 ==> d == 0)
    ensures Or3(Low(Put(a, 4, c, s), 4), High(Put(b, 5, c, s), 1), High(Put(d, 6, c, s), 6))
         == Added(Or3(Low(a, 4), High(b, 1), High(d, 6)), c, s, 3)
  {
    hide Or, Or3, High, Low;
    Zeros();
    FillThree(Low(a, 4), High(b, 1), Low(c, 4));
    FillThree(Low(a, 4), High(b, 1), High(c, 1));
    FillThree(Low(a, 4), High(b, 1), High(c, 6));
  }

  lemma Store4(a: bv8, b: bv8, c: bv8, s: nat)
    requires s < 8 && (s <= 6 ==> a == 0) && (s <= 7 ==> b == 0)
    ensures Or(Low(Put(a, 6, c, s), 6), High(Put(b, 7, c, s), 3))
         == Added(Or(Low(a, 6), High(b, 3)), c, s, 4)
  {
    hide Or, Or3, High, Low;
    Zeros();
    FillTwo(Low(a, 6), Low(c, 6));
    FillTwo(Low(a, 6), High(c, 3));
  }

  lemma AppendedAt(p: seq<bv8>, c: bv8, t: nat, s: nat)
    requires |p| == 8 * t + s && s < 8
    ensures forall k :: 8 * t <= k < 8 * t + 8 ==> At(p + [c], k) == Put(At(p, k), k - 8 * t, c, s)
    ensures forall k :: |p| <= k < 8 * t + 8 ==> At(p, k) == 0
  {
  }

  /** In any other block. */
  lemma StoreElsewhere(p: seq<bv8>, c: bv8, q: nat)
    requires q / 5 != |p| / 8
    ensures ByteAt(p + [c], q) == Stored(p, c, q)
  {
    hide Or, Or3, High, Low;
    var t := q / 5;
    forall k | 8 * t <= k < 8 * t + 8 ensures At(p + [c], k) == At(p, k) {
    }
    hide At;
    assert ByteOf(|p|) / 5 == |p| / 8 && (BitOf(|p|) > 3 ==> (ByteOf(|p|) + 1) / 5 == |p| / 8);
  }

  lemma StoreStep(p: seq<bv8>, c: bv8, q: nat)
    ensures ByteAt(p + [c], q) == Stored(p, c, q)
  {
    hide ByteAt, Stored;
    if q / 5 == |p| / 8 {
      StoreInBlock(p, c, q / 5, |p| % 8, q % 5);
      assert q == 5 * (q / 5) + q % 5;
    } else {
      StoreElsewhere(p, c, q);
    }
  }
}

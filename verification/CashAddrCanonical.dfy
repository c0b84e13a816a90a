/** Which strings bcash/BRBCashAddr.c accepts besides those it writes. */
module CashAddrCanonical {
  import opened Wrappers
  import C = CashChecksum
  import opened CashAddr
  import opened CashAddrText

  // ----- symbols to bytes and back

  lemma Symbol0(z: bv8, a: bv8, b: bv8)
    requires a < 32 && b < 32
    ensures Across(z, Or(High(a, 0), High(b, 5)), 0) == a
  {
  }

  lemma Symbol1(a: bv8, b: bv8, c: bv8, d: bv8)
    requires b < 32 && c < 32 && d < 32
    ensures Across(Or(High(a, 0), High(b, 5)), Or3(Low(b, 5), High(c, 2), High(d, 7)), 3) == b
  {
  }

  lemma Symbol2(b: bv8, c: bv8, d: bv8)
    requires c < 32 && d < 32
    ensures Within(Or3(Low(b, 5), High(c, 2), High(d, 7)), 3) == c
  {
  }

  lemma Symbol3(b: bv8, c: bv8, d: bv8, e: bv8)
    requires d < 32 && e < 32
    ensures Across(Or3(Low(b, 5), High(c, 2), High(d, 7)), Or(Low(d, 7), High(e, 4)), 1) == d
  {
  }

  lemma Symbol4(d: bv8, e: bv8, f: bv8, g: bv8)
    requires e < 32 && f < 32 && g < 32
    ensures Across(Or(Low(d, 7), High(e, 4)), Or3(Low(e, 4), High(f, 1), High(g, 6)), 4) == e
  {
  }

  lemma Symbol5(e: bv8, f: bv8, g: bv8)
    requires f < 32 && g < 32
    ensures Within(Or3(Low(e, 4), High(f, 1), High(g, 6)), 4) == f
  {
  }

  lemma Symbol6(e: bv8, f: bv8, g: bv8, i: bv8)
    requires g < 32 && i < 32
    ensures Across(Or3(Low(e, 4), High(f, 1), High(g, 6)), Or(Low(g, 6), High(i, 3)), 2) == g
  {
  }

  lemma Symbol7(g: bv8, i: bv8)
    requires i < 32
    ensures Within(Or(Low(g, 6), High(i, 3)), 2) == i
  {
  }

  /** The last symbol of 34 has three bits in the last byte of 21, and two that go nowhere. */
  lemma LastSymbol(a: bv8, b: bv8)
    requires a < 32 && b < 32
    ensures Across(Or(High(a, 0), High(b, 5)), 0, 3) == b <==> b & 3 == 0
  {
  }

  /** The bytes of a whole block of symbols have these as their symbols. */
  lemma BlockBack(p: seq<bv8>, data: seq<bv8>, t: nat)
    requires forall k :: 0 <= k < |p| ==> p[k] < 32
    requires 8 * t + 8 <= |p| && forall q :: 5 * t <= q < 5 * t + 5 ==> At(data, q) == ByteAt(p, q)
    ensures forall k :: 8 * t <= k < 8 * t + 8 ==> Symbol(data, k) == p[k]
  {
    hide Or, Or3, High, Low, Across, Within, Symbol, ByteAt;
    BlockSymbols(data, t);
    BlockBytes(p, t);
    var k := 8 * t;
    assert At(p, k) == p[k] && At(p, k + 1) == p[k + 1] && At(p, k + 2) == p[k + 2] && At(p, k + 3) == p[k + 3];
    assert At(p, k + 4) == p[k + 4] && At(p, k + 5) == p[k + 5] && At(p, k + 6) == p[k + 6] && At(p, k + 7) == p[k + 7];
    Symbol0(At(data, 5 * t - 1), p[k], p[k + 1]);
    Symbol1(p[k], p[k + 1], p[k + 2], p[k + 3]);
    Symbol2(p[k + 1], p[k + 2], p[k + 3]);
    Symbol3(p[k + 1], p[k + 2], p[k + 3], p[k + 4]);
    Symbol4(p[k + 3], p[k + 4], p[k + 5], p[k + 6]);
    Symbol5(p[k + 4], p[k + 5], p[k + 6]);
    Symbol6(p[k + 4], p[k + 5], p[k + 6], p[k + 7]);
    Symbol7(p[k + 6], p[k + 7]);
    forall j | 8 * t <= j < 8 * t + 8 ensures Symbol(data, j) == p[j] {
      assert j == k || j == k + 1 || j == k + 2 || j == k + 3 || j == k + 4 || j == k + 5 || j == k + 6 || j == k + 7;
    }
  }

  /** The last two symbols. */
  lemma TailBack(p: seq<bv8>, data: seq<bv8>)
    requires |p| == 34 && |data| == 21 && p[32] < 32 && p[33] < 32 && data[20] == ByteAt(p, 20)
    ensures Symbol(data, 32) == p[32] && (Symbol(data, 33) == p[33] <==> p[33] & 3 == 0)
  {
    hide Or, Or3, High, Low, Across, Within, Symbol, ByteAt;
    BlockSymbols(data, 4);
    BlockBytes(p, 4);
    assert At(p, 32) == p[32] && At(p, 33) == p[33] && At(data, 20) == data[20] && At(data, 21) == 0;
    Symbol0(At(data, 19), p[32], p[33]);
    LastSymbol(p[32], p[33]);
  }

  /** 34 symbols are those of the bytes they spell iff the two bits left over are zero. */
  lemma RegroupBack(p: seq<bv8>)
    requires |p| == 34 && forall k :: 0 <= k < 34 ==> p[k] < 32
    ensures Symbols(BytesOf(p, 21)) == p <==> p[33] & 3 == 0
  {
    hide Symbol, ByteAt;
    var data := BytesOf(p, 21);
    forall k | 0 <= k < 32 ensures Symbol(data, k) == p[k] {
      var t := k / 8;
      assert forall q :: 5 * t <= q < 5 * t + 5 ==> At(data, q) == data[q];
      BlockBack(p, data, t);
    }
    TailBack(p, data);
    assert Symbols(data)[33] == Symbol(data, 33);
  }

  // ----- letters back to characters

  lemma DigitReads(ch: char)
    ensures Digit(ch).Some? ==> Letter(Digit(ch).value) == ch
  {
  }

  lemma {:induction false} ValuesRead(s: string)
    requires Values(s).Some?
    ensures Lower(s) == Text(Values(s).value)
  {
    hide Digit, Letter, ToLower;
    ValuesLength(s);
    if s != [] {
      var n := |s| - 1;
      ValuesRead(s[..n]);
      ValuesLength(s[..n]);
      DigitReads(ToLower(s[n]));
      assert Lower(s) == Lower(s[..n]) + [ToLower(s[n])];
      var v := Values(s).value;
      assert v[..n] == Values(s[..n]).value;
      assert Text(v) == Text(v[..n]) + [Letter(v[n])];
    }
  }

  lemma TextIsInjective(v: seq<bv8>, w: seq<bv8>)
    requires |v| == |w| && Text(v) == Text(w)
    requires forall k :: 0 <= k < |v| ==> v[k] < 32 && w[k] < 32
    ensures v == w
  {
    hide Digit, Letter, ToLower;
    forall k | 0 <= k < |v| ensures v[k] == w[k] {
      assert Text(v)[k] == Letter(v[k]) && Text(w)[k] == Letter(w[k]);
      LetterReads(v[k]);
      LetterReads(w[k]);
    }
  }

  // ----- case, and the checksum of what is left

  lemma LowerKeepsLow5(c: char)
    ensures Low5(ToLower(c)) == Low5(c)
  {
    if IsUpper(c) {
      assert (c as int + 32) % 32 == c as int % 32;
    }
  }

  lemma LowerKeepsState(s: string, v: seq<bv8>)
    ensures StateOf(Lower(s), v) == StateOf(s, v)
  {
    hide C.Fold, Low5, ToLower;
    forall k | 0 <= k < |s| ensures Low5(ToLower(s[k])) == Low5(s[k]) {
      LowerKeepsLow5(s[k]);
    }
    assert Low5All(Lower(s)) == Low5All(s);
  }

  /** Only one checksum closes a payload. */
  lemma ChecksumIsUnique(hrp: string, s: seq<bv8>, tail: seq<bv8>)
    requires |tail| == 8 && StateOf(hrp, s + tail) == 1
    requires (forall k :: 0 <= k < |s| ==> s[k] < 32) && (forall k :: 0 <= k < 8 ==> tail[k] < 32)
    ensures tail == ChecksumSymbols(hrp, s)
  {
    hide C.Fold, Low5, Widen, ChecksumSymbols;
    ChecksumCloses(hrp, s);
    var other := ChecksumSymbols(hrp, s);
    var v, w := s + tail, s + other;
    forall k | 0 <= k < |v|
      ensures C.IsSymbol(WidenAll(v)[k]) && C.IsSymbol(WidenAll(w)[k]) && (Widen(v[k]) == Widen(w[k]) <==> v[k] == w[k])
    {
      WidenSymbols(v[k], w[k]);
    }
    var head := Low5All(hrp) + [0];
    C.FoldConcat(1, head, WidenAll(v));
    C.FoldConcat(1, head, WidenAll(w));
    forall k | 0 <= k < |v| && !(|s| <= k < |s| + 8) ensures WidenAll(v)[k] == WidenAll(w)[k] {
    }
    C.BurstsAreDetected(C.Fold(1, head), WidenAll(v), WidenAll(w), |s|);
    forall k | 0 <= k < 8 ensures tail[k] == other[k] {
      assert WidenAll(v)[|s| + k] == WidenAll(w)[|s| + k];
      assert v[|s| + k] == tail[k] && w[|s| + k] == other[k];
    }
  }

  // ----- exactly when a string is what would be written

  /** The string, apart from its case, has the form the encoder gives it: a separator, 34 symbols
      with two zero bits at the end, and the checksum. */
  predicate IsCanonical(addr: string) {
    var sep := Separator(addr, |addr|);
    && sep < |addr| && addr[sep] == ':' && |addr| == sep + 43
    && Values(Payload(addr)).Some? && |Values(Payload(addr)).value| == 42
    && Values(Payload(addr)).value[33] & 3 == 0
  }

  /** An accepted string is the encoding of what it decodes to, apart from its case, if and only if it
      has that form. */
  lemma AcceptedIsEncoded(addr: string)
    requires IsAccepted(addr)
    ensures var (hrp, data) := Decoded(addr).value;
            Lower(addr) == Encoded(hrp, data) <==> IsCanonical(addr)
  {
    hide C.Fold, Low5, Separator, Values, Widen, ByteAt, Symbol, ChecksumSymbols, StateOf, ToLower, Letter;
    var sep, v := Separator(addr, |addr|), Values(Payload(addr)).value;
    var (hrp, data) := Decoded(addr).value;
    ValuesLength(Payload(addr));
    ValuesRead(Payload(addr));
    SplitLower(addr, sep);
    if |addr| == sep + 43 {
      assert data == BytesOf(v[..34], 21);
      RegroupBack(v[..34]);
      PayloadIsEncoded(addr, sep, hrp, v);
    } else {
      assert |Encoded(hrp, data)| == sep + 43;
    }
  }

  lemma SplitLower(addr: string, sep: nat)
    requires sep < |addr|
    ensures Lower(addr) == Lower(addr[..sep]) + [ToLower(addr[sep])] + Lower(addr[sep + 1..])
    ensures ToLower(addr[sep]) == ':' <==> addr[sep] == ':'
  {
    SeparatorHasNoCase(addr[sep]);
    hide ToLower;
  }

  lemma SeparatorHasNoCase(c: char)
    ensures ToLower(c) == ':' <==> c == ':'
  {
  }

  lemma PayloadIsEncoded(addr: string, sep: nat, hrp: string, v: seq<bv8>)
    requires |addr| == sep + 43 && |v| == 42 && (forall k :: 0 <= k < 42 ==> v[k] < 32)
    requires Lower(addr[sep + 1..]) == Text(v) && hrp == Lower(addr[..sep]) && StateOf(addr[..sep], v) == 1
    requires Lower(addr) == hrp + [ToLower(addr[sep])] + Text(v)
    ensures Lower(addr) == Encoded(hrp, BytesOf(v[..34], 21))
       <==> ToLower(addr[sep]) == ':' && Symbols(BytesOf(v[..34], 21)) == v[..34]
  {
    hide C.Fold, Low5, Widen, ByteAt, Symbol, ChecksumSymbols, StateOf, ToLower, Letter;
    var s := Symbols(BytesOf(v[..34], 21));
    var w := s + ChecksumSymbols(hrp, s);
    LowerKeepsState(addr[..sep], v);
    assert v[..34] + v[34..] == v;
    ChecksumIsUnique(hrp, v[..34], v[34..]);
    ChecksumCloses(hrp, s);
    forall k | 0 <= k < 42 ensures w[k] < 32 {
      if k < 34 {
        SymbolIsSmall(BytesOf(v[..34], 21), k);
      }
    }
    var n := |hrp|;
    if Lower(addr) == Encoded(hrp, BytesOf(v[..34], 21)) {
      assert Lower(addr)[n] == ToLower(addr[sep]) && ((hrp + [':']) + Text(w))[n] == ':';
      assert Text(v) == Lower(addr)[n + 1..] == ((hrp + [':']) + Text(w))[n + 1..] == Text(w);
      TextIsInjective(v, w);
    }
  }

  // ----- accepted strings that are not

  /** Any 33 or 34 symbols with their checksum are accepted. */
  lemma AnySymbolsDecode(hrp: string, s: seq<bv8>)
    requires |hrp| <= 11 && IsPrefix(hrp) && 33 <= |s| <= 34 && forall k :: 0 <= k < |s| ==> s[k] < 32
    ensures Decoded((hrp + [':']) + Text(s + ChecksumSymbols(hrp, s))) == Some((hrp, BytesOf(s, 21)))
  {
    hide C.Fold, Symbol, ByteAt, Digit, Letter, Low5, Separator, Values, StateOf, ChecksumSymbols;
    var all := s + ChecksumSymbols(hrp, s);
    var addr := (hrp + [':']) + Text(all);
    ChecksumCloses(hrp, s);
    TextReads(all);
    SeparatorFound(hrp, Text(all), |Text(all)|);
    assert addr[|hrp| + 1..] == Text(all) && addr[..|hrp|] == hrp;
    EncodedIsPlain(hrp, Text(all));
    assert all[..|s|] == s;
    LowerStays(hrp);
  }

  /** The two padding bits are ignored: with any of them set, and another checksum, a second string
      decodes to the same prefix and bytes. */
  lemma PaddedDecodes(hrp: string, data: seq<bv8>, c: bv8)
    requires |hrp| <= 11 && IsPrefix(hrp) && |data| == 21
    requires c < 32 && c >> 2 == Symbol(data, 33) >> 2 && c & 3 != 0
    ensures var s := Symbols(data)[33 := c];
            var addr := (hrp + [':']) + Text(s + ChecksumSymbols(hrp, s));
            Decoded(addr) == Some((hrp, data)) && addr != Encoded(hrp, data)
  {
    hide C.Fold, Symbol, ByteAt, Digit, Letter, Low5, Separator, Values, StateOf, ChecksumSymbols;
    var s, p := Symbols(data)[33 := c], Symbols(data);
    forall k | 0 <= k < 34 ensures p[k] < 32 && s[k] < 32 {
      SymbolIsSmall(data, k);
    }
    AnySymbolsDecode(hrp, s);
    PaddingIsIgnored(p, c);
    RegroupRoundTrip(data);
    RegroupBack(p);
    assert s[33] != p[33];
    TextDiffers(s + ChecksumSymbols(hrp, s), p + ChecksumSymbols(hrp, p), 33);
    var t, u := Text(s + ChecksumSymbols(hrp, s)), Text(p + ChecksumSymbols(hrp, p));
    assert ((hrp + [':']) + t)[|hrp| + 34] == t[33] && ((hrp + [':']) + u)[|hrp| + 34] == u[33];
  }

  lemma TextDiffers(v: seq<bv8>, w: seq<bv8>, k: nat)
    requires k < |v| == |w| && v[k] < 32 && w[k] < 32 && v[k] != w[k]
    ensures Text(v)[k] != Text(w)[k]
  {
    hide Digit, Letter, ToLower;
    LetterReads(v[k]);
    LetterReads(w[k]);
  }

  /** A symbol may be missing: 33 symbols are taken for 21 bytes, the last of which lacks three bits. */
  lemma ShortDecodes(hrp: string, s: seq<bv8>)
    requires |hrp| <= 11 && IsPrefix(hrp) && |s| == 33 && forall k :: 0 <= k < 33 ==> s[k] < 32
    ensures var addr := (hrp + [':']) + Text(s + ChecksumSymbols(hrp, s));
            && Decoded(addr) == Some((hrp, BytesOf(s, 21)))
            && |addr| < |Encoded(hrp, BytesOf(s, 21))|
  {
    AnySymbolsDecode(hrp, s);
  }

  /** Without a separator the first character, whatever it is, is neither prefix nor payload. */
  lemma NoSeparatorDecodes(x: char, s: seq<bv8>)
    requires IsPrintable(x) && !IsUpper(x) && x != ':' && 33 <= |s| <= 34 && forall k :: 0 <= k < |s| ==> s[k] < 32
    ensures Decoded([x] + Text(s + ChecksumSymbols([], s))) == Some(([], BytesOf(s, 21)))
  {
    hide C.Fold, Symbol, ByteAt, Digit, Letter, Low5, Values, StateOf, ChecksumSymbols, Separator, HasUpper, HasLower, IsPrintable;
    var all := s + ChecksumSymbols([], s);
    var addr := [x] + Text(all);
    ChecksumCloses([], s);
    TextReads(all);
    PlainText(x, Text(all));
    assert addr[1..] == Text(all) && addr[..0] == [];
    assert all[..|s|] == s;
    LowerStays([]);
  }

  lemma PlainText(x: char, text: string)
    requires IsPrintable(x) && !IsUpper(x) && x != ':'
    requires forall k :: 0 <= k < |text| ==> IsPrintable(text[k]) && !IsUpper(text[k]) && text[k] != ':'
    ensures var addr := [x] + text;
            && (forall k :: 0 <= k < |addr| ==> IsPrintable(addr[k]))
            && !HasUpper(addr) && Separator(addr, |addr|) == 0
  {
    NoSeparator([x] + text, |[x] + text|);
  }

  lemma {:induction false} NoSeparator(addr: string, n: nat)
    requires n <= |addr| && forall k :: 0 <= k < |addr| ==> addr[k] != ':'
    ensures Separator(addr, n) == 0
  {
    if n > 0 {
      NoSeparator(addr, n - 1);
    }
  }
}

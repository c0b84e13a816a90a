/** Cashaddr as text, `_BRBCashAddrEncode` and `_BRBCashAddrDecode` of bcash/BRBCashAddr.c. */
module CashAddrText {
  import opened Wrappers
  import C = CashChecksum
  import opened CashAddr

  /** `chars[c]`. */
  function Letter(c: bv8): char {
    if c == 0 then 'q' else if c == 1 then 'p' else if c == 2 then 'z' else if c == 3 then 'r'
    else if c == 4 then 'y' else if c == 5 then '9' else if c == 6 then 'x' else if c == 7 then '8'
    else if c == 8 then 'g' else if c == 9 then 'f' else if c == 10 then '2' else if c == 11 then 't'
    else if c == 12 then 'v' else if c == 13 then 'd' else if c == 14 then 'w' else if c == 15 then '0'
    else if c == 16 then 's' else if c == 17 then '3' else if c == 18 then 'j' else if c == 19 then 'n'
    else if c == 20 then '5' else if c == 21 then '4' else if c == 22 then 'k' else if c == 23 then 'h'
    else if c == 24 then 'c' else if c == 25 then 'e' else if c == 26 then '6' else if c == 27 then 'm'
    else if c == 28 then 'u' else if c == 29 then 'a' else if c == 30 then '7' else 'l'
  }

  /** The switch of the decoder, on a lower-case character. */
  function Digit(ch: char): Option<bv8> {
    if ch == 'q' then Some(0) else if ch == 'p' then Some(1) else if ch == 'z' then Some(2)
    else if ch == 'r' then Some(3) else if ch == 'y' then Some(4) else if ch == '9' then Some(5)
    else if ch == 'x' then Some(6) else if ch == '8' then Some(7) else if ch == 'g' then Some(8)
    else if ch == 'f' then Some(9) else if ch == '2' then Some(10) else if ch == 't' then Some(11)
    else if ch == 'v' then Some(12) else if ch == 'd' then Some(13) else if ch == 'w' then Some(14)
    else if ch == '0' then Some(15) else if ch == 's' then Some(16) else if ch == '3' then Some(17)
    else if ch == 'j' then Some(18) else if ch == 'n' then Some(19) else if ch == '5' then Some(20)
    else if ch == '4' then Some(21) else if ch == 'k' then Some(22) else if ch == 'h' then Some(23)
    else if ch == 'c' then Some(24) else if ch == 'e' then Some(25) else if ch == '6' then Some(26)
    else if ch == 'm' then Some(27) else if ch == 'u' then Some(28) else if ch == 'a' then Some(29)
    else if ch == '7' then Some(30) else if ch == 'l' then Some(31) else None
  }

  predicate IsUpper(c: char) { 'A' <= c <= 'Z' }

  predicate IsLower(c: char) { 'a' <= c <= 'z' }

  function ToLower(c: char): char {
    if IsUpper(c) then (c as int + 32) as char else c
  }

  function Lower(s: string): (r: string)
    ensures |r| == |s| && forall k :: 0 <= k < |s| ==> r[k] == ToLower(s[k])
  {
    seq(|s|, k requires 0 <= k < |s| => ToLower(s[k]))
  }

  predicate IsPrintable(c: char) { 33 <= c as int <= 126 }

  lemma LetterReads(c: bv8)
    requires c < 32
    ensures Digit(Letter(c)) == Some(c) && Digit(ToLower(Letter(c))) == Some(c)
    ensures IsPrintable(Letter(c)) && !IsUpper(Letter(c)) && Letter(c) != ':'
  {
    LettersLow(c);
  }

  lemma LettersLow(c: bv8)
    requires c < 32
    ensures Digit(Letter(c)) == Some(c) && IsPrintable(Letter(c)) && !IsUpper(Letter(c)) && Letter(c) != ':'
  {
    hide Digit, Letter;
    if c < 8 { Letters0(c); } else if c < 16 { Letters8(c); } else if c < 24 { Letters16(c); } else if c < 28 { Letters24(c); } else { Letters28(c); }
  }

  lemma Letters0(c: bv8)
    requires c < 8
    ensures Digit(Letter(c)) == Some(c) && IsPrintable(Letter(c)) && !IsUpper(Letter(c)) && Letter(c) != ':'
  {
  }

  lemma Letters8(c: bv8)
    requires 8 <= c < 16
    ensures Digit(Letter(c)) == Some(c) && IsPrintable(Letter(c)) && !IsUpper(Letter(c)) && Letter(c) != ':'
  {
  }

  lemma Letters16(c: bv8)
    requires 16 <= c < 24
    ensures Digit(Letter(c)) == Some(c) && IsPrintable(Letter(c)) && !IsUpper(Letter(c)) && Letter(c) != ':'
  {
  }

  lemma Letters24(c: bv8)
    requires 24 <= c < 28
    ensures Digit(Letter(c)) == Some(c) && IsPrintable(Letter(c)) && !IsUpper(Letter(c)) && Letter(c) != ':'
  {
  }

  lemma Letters28(c: bv8)
    requires 28 <= c < 32
    ensures Digit(Letter(c)) == Some(c) && IsPrintable(Letter(c)) && !IsUpper(Letter(c)) && Letter(c) != ':'
  {
  }

  // ----- symbols and checksum of a string

  /** `c & 0x1f`. */
  function Low5(c: char): bv40 { (c as int % 32) as bv40 }

  function Low5All(s: string): (r: seq<bv40>)
    ensures |r| == |s| && forall k :: 0 <= k < |s| ==> r[k] == Low5(s[k])
  {
    seq(|s|, k requires 0 <= k < |s| => Low5(s[k]))
  }

  /** The checksum state after the prefix, the separator and some symbols. */
  function StateOf(prefix: string, values: seq<bv8>): bv40 {
    C.Fold(1, (Low5All(prefix) + [0]) + WidenAll(values))
  }

  function Narrow(d: bv40): bv8 { (d & 0x1f) as bv8 }

  function NarrowAll(s: seq<bv40>): (r: seq<bv8>)
    ensures |r| == |s| && forall k :: 0 <= k < |s| ==> r[k] == Narrow(s[k])
  {
    seq(|s|, k requires 0 <= k < |s| => Narrow(s[k]))
  }

  function Text(s: seq<bv8>): (r: string)
    ensures |r| == |s| && forall k :: 0 <= k < |s| ==> r[k] == Letter(s[k])
  {
    seq(|s|, k requires 0 <= k < |s| => Letter(s[k]))
  }

  /** The eight checksum symbols after a prefix and payload symbols. */
  function ChecksumSymbols(prefix: string, values: seq<bv8>): (r: seq<bv8>)
    ensures |r| == 8
  {
    NarrowAll(C.Digits(C.Checksum(StateOf(prefix, values))))
  }

  /** The symbols a string stands for, in either case. */
  function Values(s: string): Option<seq<bv8>> {
    if s == [] then Some([])
    else match Values(s[..|s| - 1])
      case None => None
      case Some(v) => match Digit(ToLower(s[|s| - 1])) case None => None case Some(c) => Some(v + [c])
  }

  // ----- what is encoded and decoded

  predicate IsPrefix(hrp: string) {
    forall k :: 0 <= k < |hrp| ==> IsPrintable(hrp[k]) && !IsUpper(hrp[k])
  }

  function Encoded(hrp: string, data: seq<bv8>): string {
    var s := Symbols(data);
    (hrp + [':']) + Text(s + ChecksumSymbols(hrp, s))
  }

  /** The position of the last separator, zero if there is none. */
  function Separator(addr: string, sep: nat): (r: nat)
    ensures r <= sep
  {
    if sep == 0 || (sep < |addr| && addr[sep] == ':') then sep else Separator(addr, sep - 1)
  }

  predicate HasLower(s: string) { exists k :: 0 <= k < |s| && IsLower(s[k]) }

  predicate HasUpper(s: string) { exists k :: 0 <= k < |s| && IsUpper(s[k]) }

  /** The characters after the separator. */
  function Payload(addr: string): string {
    var sep := Separator(addr, |addr|);
    if sep + 1 <= |addr| then addr[sep + 1..] else []
  }

  function PrefixOf(addr: string): string { addr[..Separator(addr, |addr|)] }

  predicate IsAccepted(addr: string) {
    var sep := Separator(addr, |addr|);
    && (forall k :: 0 <= k < |addr| ==> IsPrintable(addr[k]))
    && sep <= 11 && sep + 34 + 8 <= |addr| && !(HasUpper(addr) && HasLower(addr))
    && Values(Payload(addr)).Some? && StateOf(PrefixOf(addr), Values(Payload(addr)).value) == 1
    && (|addr| - (sep + 8)) * 5 / 8 == 21
  }

  /** Prefix and bytes of an accepted string. */
  function Decoded(addr: string): Option<(string, seq<bv8>)> {
    if !IsAccepted(addr) then None
    else
      ValuesLength(Payload(addr));
      var v := Values(Payload(addr)).value;
      Some((Lower(PrefixOf(addr)), BytesOf(v[..|v| - 8], 21)))
  }

  lemma {:induction false} ValuesLength(s: string)
    ensures Values(s).Some? ==> |Values(s).value| == |s| && forall k :: 0 <= k < |s| ==> Values(s).value[k] < 32
  {
    if s != [] {
      hide Digit, ToLower;
      ValuesLength(s[..|s| - 1]);
      DigitIsSmall(ToLower(s[|s| - 1]));
    }
  }

  lemma DigitIsSmall(c: char)
    ensures Digit(c).Some? ==> Digit(c).value < 32
  {
  }

  // ----- encoding

  lemma FoldPush(chk: bv40, s: seq<bv40>, c: bv40, v: bv40)
    requires v == C.Fold(chk, s)
    ensures C.Xor(C.Polymod(v), c) == C.Fold(chk, s + [c])
    ensures C.Polymod(v) == C.Fold(chk, s + [0])
  {
    hide C.Fold, C.Polymod, C.Xor;
    C.FoldAppend(chk, s, c);
    C.FoldAppend(chk, s, 0);
    C.ZeroXor(C.Polymod(v));
  }

  lemma FoldNone(chk: bv40)
    ensures C.Fold(chk, []) == chk
  {
  }

  /** Eight steps with nothing added. */
  method StepEight(chk0: bv40) returns (chk: bv40)
    ensures chk == C.Fold(chk0, C.EIGHT_ZEROS)
  {
    hide C.Fold, C.Polymod;
    chk := chk0;
    FoldNone(chk0);
    for j := 0 to 8
      invariant chk == C.Fold(chk0, C.EIGHT_ZEROS[..j])
    {
      assert C.EIGHT_ZEROS[..j + 1] == C.EIGHT_ZEROS[..j] + [0];
      FoldPush(chk0, C.EIGHT_ZEROS[..j], 0, chk);
      chk := C.Polymod(chk);
    }
    assert C.EIGHT_ZEROS[..8] == C.EIGHT_ZEROS;
  }

  /** The loop over the prefix, with the step for the separator. */
  method EncodePrefix(hrp: string) returns (ok: bool, addr: string, chk: bv40)
    requires |hrp| <= 11
    ensures ok <==> IsPrefix(hrp)
    ensures ok ==> addr == hrp + [':'] && chk == C.Fold(1, Low5All(hrp) + [0])
  {
    hide C.Fold, C.Polymod, C.Xor, Low5;
    ok, addr, chk := true, [], 1;
    FoldNone(1);
    for i := 0 to |hrp|
      invariant addr == hrp[..i] && chk == C.Fold(1, Low5All(hrp[..i]))
      invariant forall k :: 0 <= k < i ==> IsPrintable(hrp[k]) && !IsUpper(hrp[k])
    {
      if i > 12 || hrp[i] as int < 33 || hrp[i] as int > 126 || IsUpper(hrp[i]) {
        ok := false;
        return;
      }
      assert Low5All(hrp[..i + 1]) == Low5All(hrp[..i]) + [Low5(hrp[i])];
      FoldPush(1, Low5All(hrp[..i]), Low5(hrp[i]), chk);
      chk := C.Xor(C.Polymod(chk), Low5(hrp[i]));
      addr := addr + [hrp[i]];
    }
    assert hrp[..|hrp|] == hrp;
    FoldPush(1, Low5All(hrp), 0, chk);
    chk := C.Polymod(chk);
    addr := addr + [':'];
  }

  /** The loop that writes the checksum. */
  method EncodeChecksum(chk: bv40) returns (text: string)
    ensures text == Text(NarrowAll(C.Digits(chk)))
  {
    hide Letter, Narrow, C.Digit;
    ghost var tail := NarrowAll(C.Digits(chk));
    text := [];
    for j := 0 to 8
      invariant text == Text(tail[..j])
    {
      assert Text(tail[..j + 1]) == Text(tail[..j]) + [Letter(tail[j])];
      text := text + [Letter(Narrow(C.Digit(chk, j)))];
    }
    assert tail[..8] == tail;
  }

  /** `_BRBCashAddrEncode`, for prefixes that leave room in the 55 bytes of the result. */
  method Encode(hrp: string, data: seq<bv8>) returns (r: Option<string>)
    requires |hrp| <= 11 && |data| == 21
    ensures r == if IsPrefix(hrp) then Some(Encoded(hrp, data)) else None
  {
    hide C.Fold, C.Polymod, C.Xor, Symbols, Letter, Low5, Narrow, C.Digit, C.Digits, WidenAll, Low5All;
    var ok, addr, chk := EncodePrefix(hrp);
    if !ok {
      return None;
    }
    var symbols;
    symbols, chk := EncodeBytes(data, chk);
    C.FoldConcat(1, Low5All(hrp) + [0], WidenAll(symbols));
    chk := StepEight(chk);
    chk := C.Xor(chk, 1);
    var tail := EncodeChecksum(chk);
    assert tail == Text(ChecksumSymbols(hrp, symbols));
    assert Text(symbols + ChecksumSymbols(hrp, symbols)) == Text(symbols) + tail;
    r := Some(addr + (Text(symbols) + tail));
  }

  // ----- decoding

  /** The loop that looks for the separator from the end. */
  method FindSeparator(addr: string) returns (sep: nat)
    ensures sep == Separator(addr, |addr|)
  {
    sep := |addr|;
    while sep > 0 && (sep == |addr| || addr[sep] != ':')
      invariant sep <= |addr| && Separator(addr, sep) == Separator(addr, |addr|)
    {
      sep := sep - 1;
    }
  }

  /** The first loop: every character is printable; which cases occur. */
  method CheckCharacters(addr: string) returns (ok: bool, upper: bool, lower: bool)
    ensures ok <==> forall k :: 0 <= k < |addr| ==> IsPrintable(addr[k])
    ensures ok ==> (upper <==> HasUpper(addr)) && (lower <==> HasLower(addr))
  {
    ok, upper, lower := true, false, false;
    for i := 0 to |addr|
      invariant ok && forall k :: 0 <= k < i ==> IsPrintable(addr[k])
      invariant upper <==> exists k :: 0 <= k < i && IsUpper(addr[k])
      invariant lower <==> exists k :: 0 <= k < i && IsLower(addr[k])
    {
      if addr[i] as int < 33 || addr[i] as int > 126 {
        ok := false;
        return;
      }
      if IsLower(addr[i]) {
        lower := true;
      }
      if IsUpper(addr[i]) {
        upper := true;
      }
    }
  }

  /** The bytes after symbol number `j` has been or-ed into them. */
  method Store(buf: seq<bv8>, ghost p: seq<bv8>, j: nat, c: bv8) returns (r: seq<bv8>)
    requires |buf| == 22 && j == |p| < 35 && buf == BytesOf(p, 22)
    ensures r == BytesOf(p + [c], 22)
  {
    hide ByteAt, Or, High, Low;
    var x, i := BitOf(j), ByteOf(j);
    StoreFits(j);
    r := buf[i := Or(buf[i], High(c, x))];
    if x > 3 {
      r := r[i + 1 := Or(buf[i + 1], Low(c, x))];
    }
    forall q | 0 <= q < 22 ensures r[q] == BytesOf(p + [c], 22)[q] {
      StoreStep(p, c, q);
    }
  }

  lemma StoreFits(j: nat)
    requires j < 35
    ensures ByteOf(j) < 22 && (BitOf(j) > 3 ==> ByteOf(j) + 1 < 22)
  {
  }

  lemma NoBytes()
    ensures BytesOf([], 22) == seq(22, i => 0)
  {
    hide ByteAt;
    forall q | 0 <= q < 22 ensures BytesOf([], 22)[q] == 0 {
      NoByte(q);
    }
  }

  lemma NoByte(q: nat)
    ensures ByteAt([], q) == 0
  {
    hide At, Or, Or3, High, Low;
    NothingAt();
    Zeros();
    ZeroOr();
  }

  lemma NothingAt()
    ensures forall k :: At([], k) == 0
  {
  }

  lemma ZeroOr()
    ensures Or(0, 0) == 0 && Or3(0, 0, 0) == 0
  {
  }

  /** The symbol loop: values, checksum state and payload bytes. */
  method DecodeSymbols(addr: string, sep: nat, chk0: bv40) returns (ok: bool, chk: bv40, buf: seq<bv8>)
    requires sep + 42 <= |addr|
    ensures ok <==> Values(addr[sep + 1..]).Some?
    ensures ok ==> chk == C.Fold(chk0, WidenAll(Values(addr[sep + 1..]).value))
    ensures ok && |addr| - sep - 9 < 35 ==>
              |Values(addr[sep + 1..]).value| == |addr| - sep - 1
              && buf == BytesOf(Values(addr[sep + 1..]).value[..|addr| - sep - 9], 22)
  {
    hide C.Fold, C.Polymod, C.Xor, Digit, ToLower, ByteAt, Widen;
    var s := addr[sep + 1..];
    chk, ok, buf := chk0, true, seq(22, i => 0);
    ghost var v: seq<bv8> := [];
    FoldNone(chk0);
    NoBytes();
    assert WidenAll([]) == [];
    var i, j := sep + 1, 0;
    while i < |addr|
      invariant i == sep + 1 + j <= |addr| && |v| == j && |buf| == 22
      invariant Values(s[..j]) == Some(v) && chk == C.Fold(chk0, WidenAll(v))
      invariant |addr| - sep - 9 < 35 ==> buf == BytesOf(v[..Least(j, |addr| - sep - 9)], 22)
      invariant |addr| - sep - 9 >= 35 ==> j <= 35 ==> buf == BytesOf(v, 22)
      decreases |addr| - i
    {
      assert s[..j + 1][..j] == s[..j] && s[..j + 1][j] == addr[i];
      var c := Digit(ToLower(addr[i]));
      if c.None? {
        ok := false;
        PrefixNone(s, j + 1);
        return;
      }
      FoldPush(chk0, WidenAll(v), Widen(c.value), chk);
      WidenAppend(v, c.value);
      chk := C.Xor(C.Polymod(chk), Widen(c.value));
      if j < 35 && i + 8 < |addr| {
        assert v[..j] == v;
        buf := Store(buf, v, j, c.value);
      }
      v := v + [c.value];
      assert forall n :: 0 <= n <= j ==> v[..n] == v[..j][..n];
      i, j := i + 1, j + 1;
      assert v[..j] == v;
    }
    assert s[..j] == s;
  }

  function Least(a: nat, b: nat): nat { if a < b then a else b }

  lemma {:induction false} PrefixNone(s: string, n: nat)
    requires n <= |s| && Values(s[..n]).None?
    ensures Values(s).None?
  {
    hide Digit, ToLower;
    if n < |s| {
      assert s[..|s| - 1][..n] == s[..n];
      PrefixNone(s[..|s| - 1], n);
    } else {
      assert s[..n] == s;
    }
  }

  /** `_BRBCashAddrDecode`. */
  method Decode(addr: string) returns (r: Option<(string, seq<bv8>)>)
    ensures r == Decoded(addr)
  {
    hide C.Fold, C.Polymod, C.Xor, Values, Low5, Separator;
    r := None;
    var ok, upper, lower := CheckCharacters(addr);
    if !ok {
      return;
    }
    var sep := FindSeparator(addr);
    if sep > 11 || sep + 34 + 8 > |addr| || (upper && lower) {
      return;
    }
    var chk: bv40 := 1;
    FoldNone(1);
    for i := 0 to sep
      invariant chk == C.Fold(1, Low5All(addr[..i]))
    {
      assert Low5All(addr[..i + 1]) == Low5All(addr[..i]) + [Low5(addr[i])];
      FoldPush(1, Low5All(addr[..i]), Low5(addr[i]), chk);
      chk := C.Xor(C.Polymod(chk), Low5(addr[i]));
    }
    FoldPush(1, Low5All(addr[..sep]), 0, chk);
    chk := C.Polymod(chk);
    var buf;
    ok, chk, buf := DecodeSymbols(addr, sep, chk);
    if !ok {
      return;
    }
    C.FoldConcat(1, Low5All(addr[..sep]) + [0], WidenAll(Values(addr[sep + 1..]).value));
    var bufLen := (|addr| - (sep + 8)) * 5 / 8;
    if chk != 1 || bufLen != 21 {
      return;
    }
    assert |addr| - sep - 9 < 35;
    assert buf[..bufLen] == BytesOf(Values(addr[sep + 1..]).value[..|addr| - sep - 9], 21);
    r := Some((Lower(addr[..sep]), buf[..bufLen]));
  }

  // ----- the round trip

  lemma NarrowWiden(d: bv40)
    requires C.IsSymbol(d)
    ensures Widen(Narrow(d)) == d && Narrow(d) < 32
  {
  }

  lemma NarrowWidenAll(s: seq<bv40>)
    requires C.AreSymbols(s)
    ensures WidenAll(NarrowAll(s)) == s && forall k :: 0 <= k < |s| ==> NarrowAll(s)[k] < 32
  {
    hide C.IsSymbol, Widen, Narrow;
    forall k | 0 <= k < |s| ensures WidenAll(NarrowAll(s))[k] == s[k] && NarrowAll(s)[k] < 32 {
      NarrowWiden(s[k]);
    }
  }

  lemma WidenConcat(s: seq<bv8>, t: seq<bv8>)
    ensures WidenAll(s + t) == WidenAll(s) + WidenAll(t)
  {
    hide Widen;
  }

  lemma SymbolIsSmall(data: seq<bv8>, k: nat)
    ensures Symbol(data, k) < 32
  {
    hide At;
  }

  lemma {:induction false} TextReads(s: seq<bv8>)
    requires forall k :: 0 <= k < |s| ==> s[k] < 32
    ensures Values(Text(s)) == Some(s)
    ensures forall k :: 0 <= k < |s| ==> IsPrintable(Text(s)[k]) && !IsUpper(Text(s)[k]) && Text(s)[k] != ':'
  {
    hide Digit, ToLower, Letter, IsPrintable, IsUpper;
    if s != [] {
      var n := |s| - 1;
      TextReads(s[..n]);
      assert Text(s)[..n] == Text(s[..n]);
      LetterReads(s[n]);
      assert s == s[..n] + [s[n]];
      forall k | 0 <= k < |s| ensures IsPrintable(Text(s)[k]) && !IsUpper(Text(s)[k]) && Text(s)[k] != ':' {
        LetterReads(s[k]);
      }
    }
  }

  /** The payload with its checksum leaves the state 1. */
  lemma ChecksumCloses(hrp: string, s: seq<bv8>)
    ensures StateOf(hrp, s + ChecksumSymbols(hrp, s)) == 1
    ensures forall k :: 0 <= k < 8 ==> ChecksumSymbols(hrp, s)[k] < 32
  {
    hide C.Fold, C.Polymod, C.Xor, C.Digit, Widen, Narrow, Low5, C.IsSymbol;
    var state := StateOf(hrp, s);
    C.ChecksumVerifies(state);
    NarrowWidenAll(C.Digits(C.Checksum(state)));
    WidenConcat(s, ChecksumSymbols(hrp, s));
    var head := Low5All(hrp) + [0];
    C.FoldConcat(1, head, WidenAll(s));
    C.FoldConcat(1, head, WidenAll(s) + WidenAll(ChecksumSymbols(hrp, s)));
    C.FoldConcat(C.Fold(1, head), WidenAll(s), WidenAll(ChecksumSymbols(hrp, s)));
  }

  /** The last separator is the one before a text without separators. */
  lemma {:induction false} SeparatorFound(hrp: string, text: string, n: nat)
    requires n <= |text| && forall k :: 0 <= k < |text| ==> text[k] != ':'
    ensures Separator((hrp + [':']) + text, |hrp| + 1 + n) == |hrp|
  {
    var addr := (hrp + [':']) + text;
    if n > 0 {
      SeparatorFound(hrp, text, n - 1);
      assert |hrp| + 1 + n < |addr| ==> addr[|hrp| + 1 + n] == text[n];
    } else {
      assert addr[|hrp|] == ':';
      assert n < |text| ==> addr[|hrp| + 1] == text[0];
    }
  }

  /** Every encoded string is accepted, and decodes to its prefix and bytes. */
  lemma RoundTrip(hrp: string, data: seq<bv8>)
    requires |hrp| <= 11 && |data| == 21 && IsPrefix(hrp)
    ensures Decoded(Encoded(hrp, data)) == Some((hrp, data))
  {
    hide C.Fold, Symbol, ByteAt, Digit, Letter, Low5, Separator, Values, StateOf, ChecksumSymbols;
    var s := Symbols(data);
    var all := s + ChecksumSymbols(hrp, s);
    var addr := Encoded(hrp, data);
    ChecksumCloses(hrp, s);
    forall k | 0 <= k < |all| ensures all[k] < 32 {
      if k < 34 {
        SymbolIsSmall(data, k);
      }
    }
    TextReads(all);
    SeparatorFound(hrp, Text(all), |Text(all)|);
    assert addr[|hrp| + 1..] == Text(all) && addr[..|hrp|] == hrp;
    EncodedIsPlain(hrp, Text(all));
    assert all[..34] == s;
    RegroupRoundTrip(data);
    LowerStays(hrp);
  }

  lemma EncodedIsPlain(hrp: string, text: string)
    requires IsPrefix(hrp) && forall k :: 0 <= k < |text| ==> IsPrintable(text[k]) && !IsUpper(text[k])
    ensures var addr := (hrp + [':']) + text;
            (forall k :: 0 <= k < |addr| ==> IsPrintable(addr[k])) && !HasUpper(addr)
  {
  }

  lemma LowerStays(s: string)
    requires forall k :: 0 <= k < |s| ==> !IsUpper(s[k])
    ensures Lower(s) == s
  {
  }

  // ----- error detection

  /** Two accepted strings with the same prefix and length never differ in one symbol only, nor in
      several within eight consecutive ones. */
  lemma ErrorsAreDetected(a: string, b: string, i: nat)
    requires IsAccepted(a) && IsAccepted(b) && |a| == |b| && PrefixOf(a) == PrefixOf(b)
    requires var v, w := Values(Payload(a)).value, Values(Payload(b)).value;
             i <= |v| && forall k :: 0 <= k < |v| && k < |w| && !(i <= k < i + 8) ==> v[k] == w[k]
    ensures Values(Payload(a)) == Values(Payload(b))
  {
    hide C.Fold, Low5, Separator, Values, Widen;
    var v, w := Values(Payload(a)).value, Values(Payload(b)).value;
    ValuesLength(Payload(a));
    ValuesLength(Payload(b));
    assert |PrefixOf(a)| == Separator(a, |a|) && |PrefixOf(b)| == Separator(b, |b|);
    forall k | 0 <= k < |v| ensures C.IsSymbol(WidenAll(v)[k]) && C.IsSymbol(WidenAll(w)[k]) && (Widen(v[k]) == Widen(w[k]) <==> v[k] == w[k]) {
      WidenSymbols(v[k], w[k]);
    }
    var head := Low5All(PrefixOf(a)) + [0];
    C.FoldConcat(1, head, WidenAll(v));
    C.FoldConcat(1, head, WidenAll(w));
    C.BurstsAreDetected(C.Fold(1, head), WidenAll(v), WidenAll(w), i);
    assert forall k :: 0 <= k < |v| ==> WidenAll(v)[k] == WidenAll(w)[k];
    assert v == w;
  }

  lemma WidenSymbols(c: bv8, d: bv8)
    requires c < 32 && d < 32
    ensures C.IsSymbol(Widen(c)) && C.IsSymbol(Widen(d)) && (Widen(c) == Widen(d) <==> c == d)
  {
  }

  // ----- what the decoder does not check

  /** The two padding bits of the last payload symbol are ignored: a second string with another
      checksum decodes to the same bytes.  (The cashaddr specification asks for them to be zero.) */
  lemma PaddingIsIgnored(p: seq<bv8>, c: bv8)
    requires |p| == 34 && c >> 2 == p[33] >> 2 && c < 32 && p[33] < 32
    ensures BytesOf(p[33 := c], 21) == BytesOf(p, 21)
  {
    hide Or, Or3, High, Low;
    forall q | 0 <= q < 21 ensures ByteAt(p[33 := c], q) == ByteAt(p, q) {
      TopBits(c, p[33]);
      assert forall k: int :: k != 33 ==> At(p[33 := c], k) == At(p, k);
      if q == 20 {
        assert q / 5 * 8 == 32;
      } else {
        assert q / 5 * 8 <= 24;
      }
    }
  }

  lemma TopBits(c: bv8, d: bv8)
    requires c >> 2 == d >> 2 && c < 32 && d < 32
    ensures High(c, 5) == High(d, 5)
  {
  }
}

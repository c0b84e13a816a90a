/** An address from the cashaddr specification that the repository's tests use as well (bitcoin/test.c, line 373), as
    bcash/BRBCashAddr.c encodes it. */
module CashAddrVector {
  import opened CashChecksum
  import opened CashAddr
  import opened CashAddrText

  /** A version byte of zero and the hash of a public key. */
  const DATA: seq<bv8> :=
    [0x0, 0x76, 0xa0, 0x40, 0x53, 0xbd, 0xa0, 0xa8, 0x8b, 0xda, 0x51,
     0x77, 0xb8, 0x6a, 0x15, 0xc3, 0xb2, 0x9f, 0x55, 0x98, 0x73]

  /** Its symbols, in groups of four. */
  const SYMBOLS: seq<bv8> :=
    [0, 1, 27, 10] + [0, 16, 2, 19] + [23, 22, 16, 10] + [17, 2, 30, 26] + [10, 5, 27, 27]
    + [16, 26, 16, 21] + [24, 14, 25, 9] + [30, 21, 12, 24] + [14, 12]

  // ----- groups

  lemma Concatenated(a: seq<bv8>, b: seq<bv8>)
    ensures WidenAll(a + b) == WidenAll(a) + WidenAll(b) && Text(a + b) == Text(a) + Text(b)
  {
    hide Widen, Letter;
  }

  lemma FoldTwo(chk: bv40, a: bv40, b: bv40)
    ensures Fold(chk, [a, b]) == Xor(Polymod(Xor(Polymod(chk), a)), b)
  {
    hide Xor, Polymod;
    FoldAppend(chk, [], a);
    FoldAppend(chk, [a], b);
    assert [] + [a] == [a] && [a] + [b] == [a, b];
  }

  lemma FoldFour(chk: bv40, a: bv40, b: bv40, c: bv40, d: bv40)
    ensures Fold(chk, [a, b, c, d]) == Xor(Polymod(Xor(Polymod(Xor(Polymod(Xor(Polymod(chk), a)), b)), c)), d)
  {
    hide Xor, Polymod, Fold;
    FoldTwo(chk, a, b);
    FoldTwo(Fold(chk, [a, b]), c, d);
    FoldConcat(chk, [a, b], [c, d]);
    assert [a, b] + [c, d] == [a, b, c, d];
  }

  lemma Prefix0()
    ensures Fold(0x1, [2, 9, 20, 3]) == 0x112683
  {
    assert Xor(Polymod(0x1), 2) == 0x22;
    assert Xor(Polymod(0x22), 9) == 0x449;
    assert Xor(Polymod(0x449), 20) == 0x8934;
    assert Xor(Polymod(0x8934), 3) == 0x112683;
    hide Xor, Polymod;
    FoldFour(0x1, 2, 9, 20, 3);
  }

  lemma Prefix1()
    ensures Fold(0x112683, [15, 9, 14, 3]) == 0x8a9a8b2ba2
  {
    assert Xor(Polymod(0x112683), 15) == 0x224d06f;
    assert Xor(Polymod(0x224d06f), 9) == 0x449a0de9;
    assert Xor(Polymod(0x449a0de9), 14) == 0x89341bd2e;
    assert Xor(Polymod(0x89341bd2e), 3) == 0x8a9a8b2ba2;
    hide Xor, Polymod;
    FoldFour(0x112683, 15, 9, 14, 3);
  }

  lemma Prefix2()
    ensures Fold(0x8a9a8b2ba2, [1, 19, 8, 0]) == 0xf669cd6d15
  {
    assert Xor(Polymod(0x8a9a8b2ba2), 1) == 0xd5ec9a1e50;
    assert Xor(Polymod(0xd5ec9a1e50), 19) == 0x7445c65529;
    assert Xor(Polymod(0x7445c65529), 8) == 0xac1f536da6;
    assert Xor(Polymod(0xac1f536da6), 0) == 0xf669cd6d15;
    hide Xor, Polymod;
    FoldFour(0x8a9a8b2ba2, 1, 19, 8, 0);
  }

  lemma Group0()
    ensures Fold(0xf669cd6d15, [0, 1, 27, 10]) == 0x61113cfdbf
  {
    assert Xor(Polymod(0xf669cd6d15), 0) == 0xf7d1778e5e;
    assert Xor(Polymod(0xf7d1778e5e), 1) == 0xc0c62be73f;
    assert Xor(Polymod(0xc0c62be73f), 27) == 0xa8a494e123;
    assert Xor(Polymod(0xa8a494e123), 10) == 0x61113cfdbf;
    hide Xor, Polymod;
    FoldFour(0xf669cd6d15, 0, 1, 27, 10);
  }

  lemma Spelt0()
    ensures WidenAll([0, 1, 27, 10]) == [0, 1, 27, 10] && Text([0, 1, 27, 10]) == "qpm2"
  {
  }

  lemma Group1()
    ensures Fold(0x61113cfdbf, [0, 16, 2, 19]) == 0xed4cd24eb0
  {
    assert Xor(Polymod(0x61113cfdbf), 0) == 0x7f376be68c;
    assert Xor(Polymod(0x7f376be68c), 16) == 0x5ab859977f;
    assert Xor(Polymod(0x5ab859977f), 2) == 0x1860481ac9;
    assert Xor(Polymod(0x1860481ac9), 19) == 0xed4cd24eb0;
    hide Xor, Polymod;
    FoldFour(0x61113cfdbf, 0, 16, 2, 19);
  }

  lemma Spelt1()
    ensures WidenAll([0, 16, 2, 19]) == [0, 16, 2, 19] && Text([0, 16, 2, 19]) == "qszn"
  {
  }

  lemma Group2()
    ensures Fold(0xed4cd24eb0, [23, 22, 16, 10]) == 0xe4b870d668
  {
    assert Xor(Polymod(0xed4cd24eb0), 23) == 0x723742ed6a;
    assert Xor(Polymod(0x723742ed6a), 22) == 0x624fc465d8;
    assert Xor(Polymod(0x624fc465d8), 16) == 0x14e878ea7c;
    assert Xor(Polymod(0x14e878ea7c), 10) == 0xe4b870d668;
    hide Xor, Polymod;
    FoldFour(0xed4cd24eb0, 23, 22, 16, 10);
  }

  lemma Spelt2()
    ensures WidenAll([23, 22, 16, 10]) == [23, 22, 16, 10] && Text([23, 22, 16, 10]) == "hks2"
  {
  }

  lemma Group3()
    ensures Fold(0xe4b870d668, [17, 2, 30, 26]) == 0x80a983a9e0
  {
    assert Xor(Polymod(0xe4b870d668), 17) == 0xd451ad780d;
    assert Xor(Polymod(0xd451ad780d), 2) == 0x43e32a9e98;
    assert Xor(Polymod(0x43e32a9e98), 30) == 0xd24bf831b6;
    assert Xor(Polymod(0xd24bf831b6), 26) == 0x80a983a9e0;
    hide Xor, Polymod;
    FoldFour(0xe4b870d668, 17, 2, 30, 26);
  }

  lemma Spelt3()
    ensures WidenAll([17, 2, 30, 26]) == [17, 2, 30, 26] && Text([17, 2, 30, 26]) == "3z76"
  {
  }

  lemma Group4()
    ensures Fold(0x80a983a9e0, [10, 5, 27, 27]) == 0x5da1781de0
  {
    assert Xor(Polymod(0x80a983a9e0), 10) == 0xb7f36d87a;
    assert Xor(Polymod(0xb7f36d87a), 5) == 0xf714678124;
    assert Xor(Polymod(0xf714678124), 27) == 0xd8642a0865;
    assert Xor(Polymod(0xd8642a0865), 27) == 0x5da1781de0;
    hide Xor, Polymod;
    FoldFour(0x80a983a9e0, 10, 5, 27, 27);
  }

  lemma Spelt4()
    ensures WidenAll([10, 5, 27, 27]) == [10, 5, 27, 27] && Text([10, 5, 27, 27]) == "29mm"
  {
  }

  lemma Group5()
    ensures Fold(0x5da1781de0, [16, 26, 16, 21]) == 0xfb01a3c7da
  {
    assert Xor(Polymod(0x5da1781de0), 16) == 0xfb4479493b;
    assert Xor(Polymod(0xfb4479493b), 26) == 0xca954f85e5;
    assert Xor(Polymod(0xca954f85e5), 16) == 0x7a3aa43409;
    assert Xor(Polymod(0x7a3aa43409), 21) == 0xfb01a3c7da;
    hide Xor, Polymod;
    FoldFour(0x5da1781de0, 16, 26, 16, 21);
  }

  lemma Spelt5()
    ensures WidenAll([16, 26, 16, 21]) == [16, 26, 16, 21] && Text([16, 26, 16, 21]) == "s6s4"
  {
  }

  lemma Group6()
    ensures Fold(0xfb01a3c7da, [24, 14, 25, 9]) == 0x532a422ef8
  {
    assert Xor(Polymod(0xfb01a3c7da), 24) == 0xc22e1e59c7;
    assert Xor(Polymod(0xc22e1e59c7), 14) == 0xf5a2233e36;
    assert Xor(Polymod(0xf5a2233e36), 25) == 0x8eacbdea27;
    assert Xor(Polymod(0x8eacbdea27), 9) == 0x532a422ef8;
    hide Xor, Polymod;
    FoldFour(0xfb01a3c7da, 24, 14, 25, 9);
  }

  lemma Spelt6()
    ensures WidenAll([24, 14, 25, 9]) == [24, 14, 25, 9] && Text([24, 14, 25, 9]) == "cwef"
  {
  }

  lemma Group7()
    ensures Fold(0x532a422ef8, [30, 21, 12, 24]) == 0xf097583646
  {
    assert Xor(Polymod(0x532a422ef8), 30) == 0xb2d183a454;
    assert Xor(Polymod(0xb2d183a454), 21) == 0xcef60544c3;
    assert Xor(Polymod(0xcef60544c3), 12) == 0xf653fc10d5;
    assert Xor(Polymod(0xf653fc10d5), 24) == 0xf097583646;
    hide Xor, Polymod;
    FoldFour(0x532a422ef8, 30, 21, 12, 24);
  }

  lemma Spelt7()
    ensures WidenAll([30, 21, 12, 24]) == [30, 21, 12, 24] && Text([30, 21, 12, 24]) == "74vc"
  {
  }

  lemma Group8()
    ensures Fold(0xf097583646, [14, 12]) == 0x6bb77fbba9
  {
    assert Xor(Polymod(0xf097583646), 14) == 0x2803dce430;
    assert Xor(Polymod(0x2803dce430), 12) == 0x6bb77fbba9;
    hide Xor, Polymod;
    FoldTwo(0xf097583646, 14, 12);
  }

  lemma Spelt8()
    ensures WidenAll([14, 12]) == [14, 12] && Text([14, 12]) == "wv"
  {
  }

  lemma Symbols0()
    ensures Symbol(DATA, 0) == 0 && Symbol(DATA, 1) == 1 && Symbol(DATA, 2) == 27 && Symbol(DATA, 3) == 10
  {
    assert At(DATA, -1) == 0x0;
    assert At(DATA, 0) == 0x0;
    assert At(DATA, 1) == 0x76;
    assert At(DATA, 2) == 0xa0;
    hide At;
  }

  lemma Symbols1()
    ensures Symbol(DATA, 4) == 0 && Symbol(DATA, 5) == 16 && Symbol(DATA, 6) == 2 && Symbol(DATA, 7) == 19
  {
    Data1();
    hide At;
  }

  lemma Data1()
    ensures At(DATA, 2) == 0xa0 && At(DATA, 3) == 0x40 && At(DATA, 4) == 0x53
  {
  }

  lemma Symbols2()
    ensures Symbol(DATA, 8) == 23 && Symbol(DATA, 9) == 22 && Symbol(DATA, 10) == 16 && Symbol(DATA, 11) == 10
  {
    assert At(DATA, 4) == 0x53;
    assert At(DATA, 5) == 0xbd;
    assert At(DATA, 6) == 0xa0;
    assert At(DATA, 7) == 0xa8;
    hide At;
  }

  lemma Symbols3()
    ensures Symbol(DATA, 12) == 17 && Symbol(DATA, 13) == 2 && Symbol(DATA, 14) == 30 && Symbol(DATA, 15) == 26
  {
    assert At(DATA, 7) == 0xa8;
    assert At(DATA, 8) == 0x8b;
    assert At(DATA, 9) == 0xda;
    hide At;
  }

  lemma Symbols4()
    ensures Symbol(DATA, 16) == 10 && Symbol(DATA, 17) == 5 && Symbol(DATA, 18) == 27 && Symbol(DATA, 19) == 27
  {
    assert At(DATA, 9) == 0xda;
    assert At(DATA, 10) == 0x51;
    assert At(DATA, 11) == 0x77;
    assert At(DATA, 12) == 0xb8;
    hide At;
  }

  lemma Symbols5()
    ensures Symbol(DATA, 20) == 16 && Symbol(DATA, 21) == 26 && Symbol(DATA, 22) == 16 && Symbol(DATA, 23) == 21
  {
    assert At(DATA, 12) == 0xb8;
    assert At(DATA, 13) == 0x6a;
    assert At(DATA, 14) == 0x15;
    hide At;
  }

  lemma Symbols6()
    ensures Symbol(DATA, 24) == 24 && Symbol(DATA, 25) == 14 && Symbol(DATA, 26) == 25 && Symbol(DATA, 27) == 9
  {
    assert At(DATA, 14) == 0x15;
    assert At(DATA, 15) == 0xc3;
    assert At(DATA, 16) == 0xb2;
    assert At(DATA, 17) == 0x9f;
    hide At;
  }

  lemma Symbols7()
    ensures Symbol(DATA, 28) == 30 && Symbol(DATA, 29) == 21 && Symbol(DATA, 30) == 12 && Symbol(DATA, 31) == 24
  {
    assert At(DATA, 17) == 0x9f;
    assert At(DATA, 18) == 0x55;
    assert At(DATA, 19) == 0x98;
    hide At;
  }

  lemma Symbols8()
    ensures Symbol(DATA, 32) == 14 && Symbol(DATA, 33) == 12
  {
    assert At(DATA, 19) == 0x98;
    assert At(DATA, 20) == 0x73;
    assert At(DATA, 21) == 0x0;
    hide At;
  }

  lemma SymbolsAre()
    ensures Symbols(DATA) == SYMBOLS
  {
    Symbols0();
    Symbols1();
    Symbols2();
    Symbols3();
    Symbols4();
    Symbols5();
    Symbols6();
    Symbols7();
    Symbols8();
    hide Symbol;
  }

  // ----- the whole

  lemma LetterBits0()
    ensures Low5('a') == 1
    ensures Low5('b') == 2
    ensures Low5('c') == 3
  {
  }

  lemma LetterBits1()
    ensures Low5('h') == 8
    ensures Low5('i') == 9
    ensures Low5('n') == 14
  {
  }

  lemma LetterBits2()
    ensures Low5('o') == 15
    ensures Low5('s') == 19
    ensures Low5('t') == 20
  {
  }

  lemma PrefixIs()
    ensures Low5All("bitcoincash") + [0] == [2, 9, 20, 3] + [15, 9, 14, 3] + [1, 19, 8, 0]
  {
    var s := "bitcoincash";
    LetterBits0();
    LetterBits1();
    LetterBits2();
    hide Low5;
  }

  lemma PrefixFold()
    ensures Fold(1, [2, 9, 20, 3] + [15, 9, 14, 3] + [1, 19, 8, 0]) == 0xf669cd6d15
  {
    hide Fold;
    Prefix0();
    Prefix1();
    Prefix2();
    FoldConcat(1, [2, 9, 20, 3], [15, 9, 14, 3]);
    FoldConcat(1, [2, 9, 20, 3] + [15, 9, 14, 3], [1, 19, 8, 0]);
  }

  /** Folding, widening and spelling one more group. */
  lemma OneMore(start: bv40, s: seq<bv8>, g: seq<bv8>)
    ensures Fold(start, WidenAll(s + g)) == Fold(Fold(start, WidenAll(s)), WidenAll(g))
    ensures Text(s + g) == Text(s) + Text(g)
  {
    hide Fold, WidenAll, Text;
    Concatenated(s, g);
    FoldConcat(start, WidenAll(s), WidenAll(g));
  }

  lemma SymbolsFold()
    ensures Fold(0xf669cd6d15, WidenAll(SYMBOLS)) == 0x6bb77fbba9
    ensures Text(SYMBOLS) == "qpm2" + "qszn" + "hks2" + "3z76" + "29mm" + "s6s4" + "cwef" + "74vc" + "wv"
  {
    hide Fold, WidenAll, Text;
    Group0();
    Spelt0();
    Group1();
    Spelt1();
    Group2();
    Spelt2();
    Group3();
    Spelt3();
    Group4();
    Spelt4();
    Group5();
    Spelt5();
    Group6();
    Spelt6();
    Group7();
    Spelt7();
    Group8();
    Spelt8();
    var s1 := [0, 1, 27, 10] + [0, 16, 2, 19];
    OneMore(0xf669cd6d15, [0, 1, 27, 10], [0, 16, 2, 19]);
    var s2 := s1 + [23, 22, 16, 10];
    OneMore(0xf669cd6d15, s1, [23, 22, 16, 10]);
    var s3 := s2 + [17, 2, 30, 26];
    OneMore(0xf669cd6d15, s2, [17, 2, 30, 26]);
    var s4 := s3 + [10, 5, 27, 27];
    OneMore(0xf669cd6d15, s3, [10, 5, 27, 27]);
    var s5 := s4 + [16, 26, 16, 21];
    OneMore(0xf669cd6d15, s4, [16, 26, 16, 21]);
    var s6 := s5 + [24, 14, 25, 9];
    OneMore(0xf669cd6d15, s5, [24, 14, 25, 9]);
    var s7 := s6 + [30, 21, 12, 24];
    OneMore(0xf669cd6d15, s6, [30, 21, 12, 24]);
    var s8 := s7 + [14, 12];
    OneMore(0xf669cd6d15, s7, [14, 12]);
  }

  lemma ChecksumIs()
    ensures ChecksumSymbols("bitcoincash", SYMBOLS) == [4, 10, 10, 8, 13, 6, 26, 29]
  {
    hide Fold, WidenAll, Low5All, Digits, NarrowAll;
    PrefixIs();
    PrefixFold();
    SymbolsFold();
    FoldConcat(1, Low5All("bitcoincash") + [0], WidenAll(SYMBOLS));
    EightZeros();
    DigitsAre();
  }

  lemma FourZeros()
    ensures Fold(0x6bb77fbba9, [0, 0, 0, 0]) == 0xfcf1443a52
  {
    assert Xor(Polymod(0x6bb77fbba9), 0) == 0xb30dbfaa2d;
    assert Xor(Polymod(0xb30dbfaa2d), 0) == 0xf571848bf6;
    assert Xor(Polymod(0xf571848bf6), 0) == 0x94d84b523e;
    assert Xor(Polymod(0x94d84b523e), 0) == 0xfcf1443a52;
    hide Xor, Polymod;
    FoldFour(0x6bb77fbba9, 0, 0, 0, 0);
  }

  lemma MoreZeros()
    ensures Fold(0xfcf1443a52, [0, 0, 0, 0]) == 0x2294869b5c
  {
    assert Xor(Polymod(0xfcf1443a52), 0) == 0x3c32e1e8df;
    assert Xor(Polymod(0x3c32e1e8df), 0) == 0x9427b3bfa7;
    assert Xor(Polymod(0x9427b3bfa7), 0) == 0xe30e598972;
    assert Xor(Polymod(0xe30e598972), 0) == 0x2294869b5c;
    hide Xor, Polymod;
    FoldFour(0xfcf1443a52, 0, 0, 0, 0);
  }

  lemma EightZeros()
    ensures Checksum(0x6bb77fbba9) == 0x2294869b5d
  {
    hide Fold;
    FourZeros();
    MoreZeros();
    FoldConcat(0x6bb77fbba9, [0, 0, 0, 0], [0, 0, 0, 0]);
    assert EIGHT_ZEROS == [0, 0, 0, 0] + [0, 0, 0, 0];
  }


  lemma Digit0()
    ensures Narrow(CashChecksum.Digit(0x2294869b5d, 0)) == 4
  {
  }

  lemma Digit1()
    ensures Narrow(CashChecksum.Digit(0x2294869b5d, 1)) == 10
  {
  }

  lemma Digit2()
    ensures Narrow(CashChecksum.Digit(0x2294869b5d, 2)) == 10
  {
  }

  lemma Digit3()
    ensures Narrow(CashChecksum.Digit(0x2294869b5d, 3)) == 8
  {
  }

  lemma Digit4()
    ensures Narrow(CashChecksum.Digit(0x2294869b5d, 4)) == 13
  {
  }

  lemma Digit5()
    ensures Narrow(CashChecksum.Digit(0x2294869b5d, 5)) == 6
  {
  }

  lemma Digit6()
    ensures Narrow(CashChecksum.Digit(0x2294869b5d, 6)) == 26
  {
  }

  lemma Digit7()
    ensures Narrow(CashChecksum.Digit(0x2294869b5d, 7)) == 29
  {
  }

  lemma DigitsAre()
    ensures NarrowAll(Digits(0x2294869b5d)) == [4, 10, 10, 8, 13, 6, 26, 29]
  {
    Digit0();
    Digit1();
    Digit2();
    Digit3();
    Digit4();
    Digit5();
    Digit6();
    Digit7();
    hide Narrow, CashChecksum.Digit;
  }

  lemma ChecksumText()
    ensures Text([4, 10, 10, 8] + [13, 6, 26, 29]) == "y22g" + "dx6a"
  {
    SpeltLast();
    Concatenated([4, 10, 10, 8], [13, 6, 26, 29]);
    hide Text;
  }

  lemma SpeltLast()
    ensures Text([4, 10, 10, 8]) == "y22g" && Text([13, 6, 26, 29]) == "dx6a"
  {

  }

  /** The bytes and their address, with the prefix, alphabet, regrouping and checksum of the specification. */
  lemma VectorIsEncoded()
    ensures Encoded("bitcoincash", DATA)
         == "bitcoincash:" + ("qpm2" + "qszn" + "hks2" + "3z76" + "29mm" + "s6s4" + "cwef" + "74vc" + "wv" + ("y22g" + "dx6a"))
  {
    hide Symbols, ChecksumSymbols, Text;
    SymbolsAre();
    ChecksumIs();
    SymbolsFold();
    ChecksumText();
    assert [4, 10, 10, 8, 13, 6, 26, 29] == [4, 10, 10, 8] + [13, 6, 26, 29];
    Concatenated(SYMBOLS, [4, 10, 10, 8, 13, 6, 26, 29]);
    assert "bitcoincash" + [':'] == "bitcoincash:";
  }

  /** The alphabet. */
  lemma AlphabetIs(c: bv8)
    requires c < 32
    ensures Letter(c) == "qpzry9x8gf2tvdw0s3jn54khce6mua7l"[c as int]
  {
    AlphabetLow(c);
    AlphabetHigh(c);
    hide Letter;
  }

  lemma AlphabetLow(c: bv8)
    ensures c < 16 ==> Letter(c) == "qpzry9x8gf2tvdw0s3jn54khce6mua7l"[c as int]
  {
  }

  lemma AlphabetHigh(c: bv8)
    ensures 16 <= c < 32 ==> Letter(c) == "qpzry9x8gf2tvdw0s3jn54khce6mua7l"[c as int]
  {
  }
}

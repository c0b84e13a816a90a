/** The 40-bit linear checksum of cashaddr, as bcash/BRBCashAddr.c computes it.  The source keeps the
    state in a 64-bit word; a step keeps no more than 40 bits of it, so 40 bits are used here.  Bit
    operations are wrapped in functions, so that what follows from their laws can be proved from the
    laws alone. */
module CashChecksum {
  // ----- bit operations and their laws

  function Xor(a: bv40, b: bv40): bv40 { a ^ b }

  /** A symbol is five bits wide. */
  predicate IsSymbol(c: bv40) { c < 32 }

  predicate Bit(x: bv40, k: nat)
    requires k < 5
  {
    if k == 0 then (x >> 35) & 1 == 1
    else if k == 1 then (x >> 36) & 1 == 1
    else if k == 2 then (x >> 37) & 1 == 1
    else if k == 3 then (x >> 38) & 1 == 1
    else (x >> 39) & 1 == 1
  }

  /** The state without its top five bits, shifted up by one symbol. */
  function Shift(x: bv40): bv40 { (x & 0x07_ffff_ffff) << 5 }

  function Generator(on: bool, g: bv40): bv40 { if on then g else 0 }

  /** What the five top bits feed back. */
  function Feedback(x: bv40): bv40 {
    Xor(Generator(Bit(x, 0), 0x98_f2bc_8e61), Xor(Generator(Bit(x, 1), 0x79_b76d_99e2), Xor(Generator(Bit(x, 2), 0xf3_3e5f_b3c4),
    Xor(Generator(Bit(x, 3), 0xae_2eab_e2a8), Generator(Bit(x, 4), 0x1e_4f43_e470)))))
  }

  /** The `polymod` macro. */
  function Polymod(x: bv40): bv40 { Xor(Shift(x), Feedback(x)) }

  lemma Associative(a: bv40, b: bv40, c: bv40)
    ensures Xor(Xor(a, b), c) == Xor(a, Xor(b, c))
  {
  }

  lemma Commutative(a: bv40, b: bv40)
    ensures Xor(a, b) == Xor(b, a)
  {
  }

  lemma Interchange(a: bv40, b: bv40, c: bv40, d: bv40)
    ensures Xor(Xor(a, b), Xor(c, d)) == Xor(Xor(a, c), Xor(b, d))
  {
    hide Xor;
    Associative(a, b, Xor(c, d));
    Associative(b, c, d);
    Commutative(b, c);
    Associative(c, b, d);
    Associative(a, c, Xor(b, d));
  }

  lemma ZeroXor(a: bv40)
    ensures Xor(0, a) == a && Xor(a, 0) == a && Xor(a, a) == 0
  {
  }

  lemma CancelXor(a: bv40, b: bv40, c: bv40)
    requires Xor(a, c) == Xor(b, c)
    ensures a == b
  {
  }

  lemma XorSymbols(a: bv40, b: bv40)
    requires IsSymbol(a) && IsSymbol(b)
    ensures IsSymbol(Xor(a, b)) && (Xor(a, b) == 0 <==> a == b)
  {
  }

  lemma BitLinear(x: bv40, y: bv40, k: nat)
    requires k < 5
    ensures Bit(Xor(x, y), k) <==> (Bit(x, k) != Bit(y, k))
  {
    if k == 0 { } else if k == 1 { } else if k == 2 { } else if k == 3 { } else { }
  }

  lemma ShiftLinear(x: bv40, y: bv40)
    ensures Shift(Xor(x, y)) == Xor(Shift(x), Shift(y))
  {
  }

  lemma GeneratorLinear(a: bool, b: bool, g: bv40)
    ensures Generator(a != b, g) == Xor(Generator(a, g), Generator(b, g))
  {
    hide Xor;
    ZeroXor(g);
    ZeroXor(0);
  }

  lemma FeedbackLinear(x: bv40, y: bv40)
    ensures Feedback(Xor(x, y)) == Xor(Feedback(x), Feedback(y))
  {
    hide Generator, Bit, Xor;
    FeedbackTerm(x, y, 0, 0x98_f2bc_8e61);
    FeedbackTerm(x, y, 1, 0x79_b76d_99e2);
    FeedbackTerm(x, y, 2, 0xf3_3e5f_b3c4);
    FeedbackTerm(x, y, 3, 0xae_2eab_e2a8);
    FeedbackTerm(x, y, 4, 0x1e_4f43_e470);
    FiveTerms(Generator(Bit(x, 0), 0x98_f2bc_8e61), Generator(Bit(x, 1), 0x79_b76d_99e2), Generator(Bit(x, 2), 0xf3_3e5f_b3c4),
              Generator(Bit(x, 3), 0xae_2eab_e2a8), Generator(Bit(x, 4), 0x1e_4f43_e470),
              Generator(Bit(y, 0), 0x98_f2bc_8e61), Generator(Bit(y, 1), 0x79_b76d_99e2), Generator(Bit(y, 2), 0xf3_3e5f_b3c4),
              Generator(Bit(y, 3), 0xae_2eab_e2a8), Generator(Bit(y, 4), 0x1e_4f43_e470));
  }

  lemma FeedbackTerm(x: bv40, y: bv40, k: nat, g: bv40)
    requires k < 5
    ensures Generator(Bit(Xor(x, y), k), g) == Xor(Generator(Bit(x, k), g), Generator(Bit(y, k), g))
  {
    hide Generator, Bit, Xor;
    BitLinear(x, y, k);
    GeneratorLinear(Bit(x, k), Bit(y, k), g);
  }

  lemma FiveTerms(a: bv40, b: bv40, c: bv40, d: bv40, e: bv40, a': bv40, b': bv40, c': bv40, d': bv40, e': bv40)
    ensures Xor(Xor(a, Xor(b, Xor(c, Xor(d, e)))), Xor(a', Xor(b', Xor(c', Xor(d', e')))))
         == Xor(Xor(a, a'), Xor(Xor(b, b'), Xor(Xor(c, c'), Xor(Xor(d, d'), Xor(e, e')))))
  {
    hide Xor;
    Interchange(d, e, d', e');
    Interchange(c, Xor(d, e), c', Xor(d', e'));
    Interchange(b, Xor(c, Xor(d, e)), b', Xor(c', Xor(d', e')));
    Interchange(a, Xor(b, Xor(c, Xor(d, e))), a', Xor(b', Xor(c', Xor(d', e'))));
  }

  /** The checksum step is linear over GF(2), */
  lemma PolymodLinear(x: bv40, y: bv40)
    ensures Polymod(Xor(x, y)) == Xor(Polymod(x), Polymod(y))
  {
    hide Feedback, Xor, Shift;
    ShiftLinear(x, y);
    FeedbackLinear(x, y);
    Interchange(Shift(x), Shift(y), Feedback(x), Feedback(y));
  }

  /** The low five bits of a step are the top five before it, because each generator has one of them. */
  lemma LowBits(x: bv40)
    ensures Polymod(x) & 0x1f == (x >> 35) & 0x1f
  {
  }

  lemma SameBits(x: bv40, y: bv40)
    requires (x >> 35) & 0x1f == (y >> 35) & 0x1f
    ensures Feedback(x) == Feedback(y)
  {
    forall k: nat | k < 5 ensures Bit(x, k) == Bit(y, k) {
      if k == 0 { } else if k == 1 { } else if k == 2 { } else if k == 3 { } else { }
    }
    hide Bit, Xor, Generator;
  }

  lemma Unshift(x: bv40, y: bv40)
    requires Shift(x) == Shift(y) && (x >> 35) & 0x1f == (y >> 35) & 0x1f
    ensures x == y
  {
  }

  /** and injective. */
  lemma PolymodInjective(x: bv40, y: bv40)
    requires Polymod(x) == Polymod(y)
    ensures x == y
  {
    LowBits(x);
    LowBits(y);
    hide Feedback, Xor, Shift;
    SameBits(x, y);
    CancelXor(Shift(x), Shift(y), Feedback(x));
    Unshift(x, y);
  }

  lemma PolymodOfZero()
    ensures Polymod(0) == 0
  {
  }

  // ----- sequences of symbols

  /** The state after some symbols. */
  function Fold(chk: bv40, s: seq<bv40>): bv40 {
    if s == [] then chk else Xor(Polymod(Fold(chk, s[..|s| - 1])), s[|s| - 1])
  }

  predicate AreSymbols(s: seq<bv40>) {
    forall k :: 0 <= k < |s| ==> IsSymbol(s[k])
  }

  predicate AreZeros(s: seq<bv40>) {
    forall k :: 0 <= k < |s| ==> s[k] == 0
  }

  function Difference(s: seq<bv40>, t: seq<bv40>): (d: seq<bv40>)
    requires |s| == |t|
    ensures |d| == |s| && forall k :: 0 <= k < |s| ==> d[k] == Xor(s[k], t[k])
  {
    seq(|s|, k requires 0 <= k < |s| => Xor(s[k], t[k]))
  }

  lemma FoldAppend(chk: bv40, s: seq<bv40>, c: bv40)
    ensures Fold(chk, s + [c]) == Xor(Polymod(Fold(chk, s)), c)
  {
    hide Xor, Polymod;
    assert (s + [c])[..|s|] == s;
  }

  lemma {:induction false} FoldConcat(chk: bv40, s: seq<bv40>, t: seq<bv40>)
    ensures Fold(chk, s + t) == Fold(Fold(chk, s), t)
  {
    hide Xor, Polymod;
    if t == [] {
      assert s + t == s;
    } else {
      FoldConcat(chk, s, t[..|t| - 1]);
      assert (s + t)[..|s + t| - 1] == s + t[..|t| - 1];
    }
  }

  /** The whole checksum is linear. */
  lemma {:induction false} FoldLinear(a: bv40, b: bv40, s: seq<bv40>, t: seq<bv40>)
    requires |s| == |t|
    ensures Xor(Fold(a, s), Fold(b, t)) == Fold(Xor(a, b), Difference(s, t))
  {
    hide Polymod, Xor, Difference;
    if s != [] {
      var n := |s| - 1;
      FoldLinear(a, b, s[..n], t[..n]);
      assert Difference(s, t)[..n] == Difference(s[..n], t[..n]);
      PolymodLinear(Fold(a, s[..n]), Fold(b, t[..n]));
      Interchange(Polymod(Fold(a, s[..n])), s[n], Polymod(Fold(b, t[..n])), t[n]);
    }
  }

  /** The state fits in `n` symbols. */
  predicate FitsSymbols(x: bv40, n: nat)
    requires n <= 8
  {
    if n == 0 then x == 0
    else if n == 1 then x < 0x20
    else if n == 2 then x < 0x400
    else if n == 3 then x < 0x8000
    else if n == 4 then x < 0x10_0000
    else if n == 5 then x < 0x200_0000
    else if n == 6 then x < 0x4000_0000
    else if n == 7 then x < 0x8_0000_0000
    else true
  }

  /** As long as no symbol has reached the top of the state, a step only makes room. */
  lemma StepSpells(x: bv40, c: bv40, n: nat)
    requires n < 8 && FitsSymbols(x, n) && IsSymbol(c)
    ensures FitsSymbols(Xor(Polymod(x), c), n + 1)
    ensures Xor(Polymod(x), c) == 0 ==> x == 0 && c == 0
  {
    hide Polymod, Xor, Push;
    FitsBelow(x, n);
    StepIsPush(x, c);
    if n == 0 { Room(x, c); } else if n == 1 { Room1(x, c); } else if n == 2 { Room2(x, c); } else if n == 3 { Room3(x, c); }
    else if n == 4 { Room4(x, c); } else if n == 5 { Room5(x, c); } else if n == 6 { Room6(x, c); } else { Room(x, c); }
  }

  lemma FitsBelow(x: bv40, n: nat)
    requires n < 8 && FitsSymbols(x, n)
    ensures x < 0x8_0000_0000
  {
  }

  lemma TopClear(x: bv40)
    requires x < 0x8_0000_0000
    ensures Polymod(x) == x << 5
  {
  }

  lemma StepIsPush(x: bv40, c: bv40)
    requires x < 0x8_0000_0000
    ensures Xor(Polymod(x), c) == Push(x, c)
  {
    hide Polymod;
    TopClear(x);
  }

  /** A symbol written behind the others. */
  function Push(x: bv40, d: bv40): bv40 { (x << 5) ^ d }

  lemma Room(x: bv40, c: bv40)
    requires x < 0x8_0000_0000 && c < 32
    ensures Push(x, c) == 0 ==> x == 0 && c == 0
    ensures x == 0 ==> Push(x, c) < 0x20
  {
  }

  lemma Room1(x: bv40, c: bv40)
    requires x < 0x20 && c < 32
    ensures Push(x, c) < 0x400 && (Push(x, c) == 0 ==> x == 0 && c == 0)
  {
  }

  lemma Room2(x: bv40, c: bv40)
    requires x < 0x400 && c < 32
    ensures Push(x, c) < 0x8000 && (Push(x, c) == 0 ==> x == 0 && c == 0)
  {
  }

  lemma Room3(x: bv40, c: bv40)
    requires x < 0x8000 && c < 32
    ensures Push(x, c) < 0x10_0000 && (Push(x, c) == 0 ==> x == 0 && c == 0)
  {
  }

  lemma Room4(x: bv40, c: bv40)
    requires x < 0x10_0000 && c < 32
    ensures Push(x, c) < 0x200_0000 && (Push(x, c) == 0 ==> x == 0 && c == 0)
  {
  }

  lemma Room5(x: bv40, c: bv40)
    requires x < 0x200_0000 && c < 32
    ensures Push(x, c) < 0x4000_0000 && (Push(x, c) == 0 ==> x == 0 && c == 0)
  {
  }

  lemma Room6(x: bv40, c: bv40)
    requires x < 0x4000_0000 && c < 32
    ensures Push(x, c) < 0x8_0000_0000 && (Push(x, c) == 0 ==> x == 0 && c == 0)
  {
  }

  /** Up to eight symbols that are not all zero leave a state that is not zero. */
  lemma {:induction false} FoldSpells(s: seq<bv40>)
    requires |s| <= 8 && AreSymbols(s)
    ensures FitsSymbols(Fold(0, s), |s|) && (Fold(0, s) == 0 ==> AreZeros(s))
  {
    if s == [] {
    } else {
      hide Polymod, Xor, FitsSymbols, IsSymbol;
      var n := |s| - 1;
      FoldSpells(s[..n]);
      StepSpells(Fold(0, s[..n]), s[n], n);
    }
  }

  /** Zeros after a state that is not zero keep it so. */
  lemma {:induction false} ZerosKeep(x: bv40, s: seq<bv40>)
    requires x != 0 && AreZeros(s)
    ensures Fold(x, s) != 0
  {
    hide Polymod, Xor;
    if s != [] {
      var y := Fold(x, s[..|s| - 1]);
      ZerosKeep(x, s[..|s| - 1]);
      PolymodOfZero();
      if Polymod(y) == 0 {
        PolymodInjective(y, 0);
      }
      ZeroXor(Polymod(y));
    }
  }

  lemma {:induction false} ZerosFromZero(s: seq<bv40>)
    requires AreZeros(s)
    ensures Fold(0, s) == 0
  {
    hide Polymod, Xor;
    if s != [] {
      ZerosFromZero(s[..|s| - 1]);
      PolymodOfZero();
      ZeroXor(0);
    }
  }

  /** A burst of symbols, zero outside eight consecutive ones, leaves zero only if it is all zero. */
  lemma BurstLeavesTrace(d: seq<bv40>, i: nat, j: nat)
    requires i <= j <= |d| && j <= i + 8 && AreSymbols(d) && AreZeros(d[..i]) && AreZeros(d[j..])
    ensures Fold(0, d) == 0 ==> AreZeros(d[i..j])
  {
    hide Fold, Polymod, Xor, IsSymbol;
    assert d == d[..i] + (d[i..j] + d[j..]);
    FoldConcat(0, d[..i], d[i..j] + d[j..]);
    FoldConcat(0, d[i..j], d[j..]);
    ZerosFromZero(d[..i]);
    FoldSpells(d[i..j]);
    if Fold(0, d[i..j]) != 0 {
      ZerosKeep(Fold(0, d[i..j]), d[j..]);
    }
  }

  /** Error detection: two symbol strings of the same length with the same checksum that differ
      only within eight consecutive symbols are equal.  In particular no single symbol, and no
      burst of up to eight, can be changed without being noticed. */
  lemma BurstsAreDetected(chk: bv40, s: seq<bv40>, t: seq<bv40>, i: nat)
    requires |s| == |t| && AreSymbols(s) && AreSymbols(t) && i <= |s|
    requires forall k :: 0 <= k < |s| && !(i <= k < i + 8) ==> s[k] == t[k]
    requires Fold(chk, s) == Fold(chk, t)
    ensures s == t
  {
    hide Fold, Xor, IsSymbol, Difference;
    var d := Difference(s, t);
    var j := if i + 8 <= |s| then i + 8 else |s|;
    forall k | 0 <= k < |s| ensures IsSymbol(d[k]) && (d[k] == 0 <==> s[k] == t[k]) {
      XorSymbols(s[k], t[k]);
    }
    FoldLinear(chk, chk, s, t);
    ZeroXor(chk);
    ZeroXor(Fold(chk, s));
    BurstLeavesTrace(d, i, j);
    forall k | 0 <= k < |s| ensures s[k] == t[k] {
      assert i <= k < j ==> d[i..j][k - i] == 0;
    }
  }

  // ----- making a checksum

  const EIGHT_ZEROS: seq<bv40> := [0, 0, 0, 0, 0, 0, 0, 0]

  /** The first `n` of the eight symbols of a 40-bit value, as a number. */
  function Leading(c: bv40, n: nat): bv40
    requires n <= 8
    decreases 8 - n
  {
    if n == 8 then c else Leading(c, n + 1) >> 5
  }

  /** The k-th of the eight symbols, highest first: `(c >> ((7 - k)*5)) & 0x1f`. */
  function Digit(c: bv40, k: nat): bv40
    requires k < 8
  {
    Leading(c, k + 1) & 0x1f
  }

  function Digits(c: bv40): (s: seq<bv40>)
    ensures |s| == 8 && forall k :: 0 <= k < 8 ==> s[k] == Digit(c, k)
  {
    seq(8, k requires 0 <= k < 8 => Digit(c, k))
  }

  lemma PushLast(y: bv40)
    ensures Push(y >> 5, y & 0x1f) == y && IsSymbol(y & 0x1f) && y >> 5 < 0x8_0000_0000
  {
  }

  lemma LeadingFold(c: bv40, n: nat)
    requires n < 8
    ensures Xor(Polymod(Leading(c, n)), Digit(c, n)) == Leading(c, n + 1) && IsSymbol(Digit(c, n))
  {
    hide Polymod, IsSymbol;
    PushLast(Leading(c, n + 1));
    TopClear(Leading(c, n));
  }

  lemma DropSymbol(y: bv40, n: nat)
    requires n < 8 && FitsSymbols(y, n + 1)
    ensures FitsSymbols(y >> 5, n)
  {
    if n == 0 { } else if n == 1 { } else if n == 2 { } else if n == 3 { }
    else if n == 4 { } else if n == 5 { } else if n == 6 { } else { }
  }

  lemma {:induction false} LeadingFits(c: bv40, n: nat)
    requires n <= 8
    ensures FitsSymbols(Leading(c, n), n)
    decreases 8 - n
  {
    if n < 8 {
      hide FitsSymbols;
      LeadingFits(c, n + 1);
      DropSymbol(Leading(c, n + 1), n);
    }
  }

  lemma {:induction false} DigitsFold(c: bv40, n: nat)
    requires n <= 8
    ensures Fold(0, Digits(c)[..n]) == Leading(c, n)
  {
    if n > 0 {
      hide Polymod, Xor, Digit, Leading, IsSymbol;
      var s := Digits(c)[..n];
      assert s[..n - 1] == Digits(c)[..n - 1] && s[n - 1] == Digit(c, n - 1);
      DigitsFold(c, n - 1);
      LeadingFold(c, n - 1);
    } else {
      LeadingFits(c, 0);
    }
  }

  /** The checksum symbols for a state: what eight zeros make of it, with the last bit flipped. */
  function Checksum(chk: bv40): bv40 { Xor(Fold(chk, EIGHT_ZEROS), 1) }

  lemma CancelOne(x: bv40)
    ensures Xor(x, Xor(x, 1)) == 1
  {
  }

  /** Appending the checksum symbols makes the state 1, whatever came before. */
  lemma ChecksumVerifies(chk: bv40)
    ensures Fold(chk, Digits(Checksum(chk))) == 1 && AreSymbols(Digits(Checksum(chk)))
  {
    hide Fold, Polymod, Xor, Digit, IsSymbol, Difference;
    CancelOne(Fold(chk, EIGHT_ZEROS));
    var c := Checksum(chk);
    DigitsFold(c, 8);
    assert Digits(c)[..8] == Digits(c);
    FoldLinear(chk, 0, EIGHT_ZEROS, Digits(c));
    DifferenceFromZeros(chk, Digits(c));
    forall k | 0 <= k < 8 ensures IsSymbol(Digits(c)[k]) {
      LeadingFold(c, k);
    }
  }

  lemma DifferenceFromZeros(chk: bv40, s: seq<bv40>)
    requires |s| == 8
    ensures Difference(EIGHT_ZEROS, s) == s && Xor(chk, 0) == chk
  {
    hide Xor;
    ZeroXor(chk);
    forall k | 0 <= k < |s| ensures Difference(EIGHT_ZEROS, s)[k] == s[k] {
      assert EIGHT_ZEROS[k] == 0;
      ZeroXor(s[k]);
    }
  }
}

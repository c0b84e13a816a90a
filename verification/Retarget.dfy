/** Compact ("nBits") proof-of-work targets and the 2016-block retarget of
    bitcoin/BRMerkleBlock.c and bitcoin/BRChainParams.c. */
module Retarget {
  import opened Wrappers
  import opened Bytes
  import Division

  const MAX_PROOF_OF_WORK: nat := 0x1d00ffff
  const TARGET_TIMESPAN: nat := 14 * 24 * 60 * 60
  const DIFFICULTY_INTERVAL: nat := 2016
  const TWO_32: nat := 0x1_0000_0000
  const TWO_64: nat := 0x1_0000_0000_0000_0000

  // ----- compact numbers

  /** The most significant byte: the size of the number in bytes. */
  function SizeOf(c: nat): nat { c / 0x100_0000 }

  /** `c & 0x007fffff`. */
  function MantissaOf(c: nat): nat { c % 0x80_0000 }

  /** `c & 0x00800000`. */
  predicate SignOf(c: nat) { c / 0x80_0000 % 2 == 1 }

  /** The number a compact target stands for. */
  function Expand(c: nat): int {
    if SizeOf(c) >= 3 then MantissaOf(c) * Pow256(SizeOf(c) - 3)
    else MantissaOf(c) / Pow256(3 - SizeOf(c))
  }

  /** `c` is written with the shortest possible size: its mantissa cannot be shifted further
      left, nor does it touch the sign bit. */
  predicate Canonical(c: nat) {
    SizeOf(c) >= 3 && !SignOf(c) && 0x8000 <= MantissaOf(c)
  }

  /** `c` is the canonical compact form of `n`: its mantissa holds the leading bytes of `n`. */
  predicate IsCompactOf(c: int, n: int) {
    c >= 0 && Canonical(c) && MantissaOf(c) == n / Pow256(SizeOf(c) - 3)
  }

  function Compose(size: int, mantissa: int): int { size * 0x100_0000 + mantissa }

  lemma ComposeParts(size: nat, mantissa: nat)
    requires mantissa < 0x80_0000
    ensures SizeOf(Compose(size, mantissa)) == size
    ensures MantissaOf(Compose(size, mantissa)) == mantissa
    ensures !SignOf(Compose(size, mantissa))
  {
  }

  lemma PartsCompose(c: nat)
    requires !SignOf(c)
    ensures c == Compose(SizeOf(c), MantissaOf(c))
  {
    Division.DivideTwice(c, 0x80_0000, 2);
  }

  /** A canonical number lies in its own 256-fold range. */
  lemma CanonicalRange(c: nat)
    requires Canonical(c)
    ensures 0x8000 * Pow256(SizeOf(c) - 3) <= Expand(c) < 0x80_0000 * Pow256(SizeOf(c) - 3)
  {
    Division.Monotone(0x8000, MantissaOf(c), Pow256(SizeOf(c) - 3));
    Division.Monotone(MantissaOf(c) + 1, 0x80_0000, Pow256(SizeOf(c) - 3));
    Division.Distribute(MantissaOf(c), 1, Pow256(SizeOf(c) - 3));
  }

  /** A smaller size means a smaller number. */
  lemma SmallerSize(c: nat, d: nat)
    requires Canonical(c) && Canonical(d) && SizeOf(c) < SizeOf(d)
    ensures c < d && Expand(c) < Expand(d)
  {
    var k := SizeOf(c) - 3;
    CanonicalRange(c);
    CanonicalRange(d);
    Pow256Monotone(k + 1, SizeOf(d) - 3);
    assert Pow256(k + 1) == 256 * Pow256(k);
  }

  /** Comparing canonical compact targets as integers is comparing the numbers they stand for. */
  lemma CompareAgrees(c: nat, d: nat)
    requires Canonical(c) && Canonical(d)
    ensures c <= d <==> Expand(c) <= Expand(d)
  {
    PartsCompose(c);
    PartsCompose(d);
    if SizeOf(c) < SizeOf(d) {
      SmallerSize(c, d);
    } else if SizeOf(d) < SizeOf(c) {
      SmallerSize(d, c);
    } else {
      var p := Pow256(SizeOf(c) - 3);
      if c <= d {
        Division.Monotone(MantissaOf(c), MantissaOf(d), p);
      } else {
        Division.Monotone(MantissaOf(d) + 1, MantissaOf(c), p);
        Division.Distribute(MantissaOf(d), 1, p);
      }
    }
  }

  /** The canonical form rounds down, and by less than one unit of its last place. */
  lemma CompactBounds(c: int, n: int)
    requires IsCompactOf(c, n)
    ensures Expand(c) <= n < Expand(c) + Pow256(SizeOf(c) - 3)
  {
    Division.QuotientBounds(n, Pow256(SizeOf(c) - 3));
    Division.Distribute(MantissaOf(c), 1, Pow256(SizeOf(c) - 3));
  }

  /** A number has at most one canonical compact form. */
  lemma CompactUnique(c: int, d: int, n: int)
    requires IsCompactOf(c, n) && IsCompactOf(d, n)
    ensures c == d
  {
    PartsCompose(c);
    PartsCompose(d);
    CompactBounds(c, n);
    CompactBounds(d, n);
    if SizeOf(c) < SizeOf(d) {
      CompactGap(c, d, n);
    } else if SizeOf(d) < SizeOf(c) {
      CompactGap(d, c, n);
    }
  }

  lemma CompactGap(c: nat, d: nat, n: int)
    requires Canonical(c) && Canonical(d) && SizeOf(c) < SizeOf(d)
    requires Expand(d) <= n
    ensures Expand(c) + Pow256(SizeOf(c) - 3) <= n
  {
    var p := Pow256(SizeOf(c) - 3);
    CanonicalRange(d);
    Pow256Monotone(SizeOf(c) - 2, SizeOf(d) - 3);
    assert Pow256(SizeOf(c) - 2) == 256 * p;
    Division.Monotone(MantissaOf(c) + 1, 0x80_0000, p);
    Division.Distribute(MantissaOf(c), 1, p);
  }

  // ----- the retarget

  /** The time span, limited to a quarter and four times the targeted one. */
  function Clamp(timespan: int): (r: nat)
    ensures TARGET_TIMESPAN / 4 <= r <= TARGET_TIMESPAN * 4
  {
    if timespan < TARGET_TIMESPAN / 4 then TARGET_TIMESPAN / 4
    else if timespan > TARGET_TIMESPAN * 4 then TARGET_TIMESPAN * 4
    else timespan
  }

  /** The new target as consensus defines it, before it is made compact: the previous one times
      the (clamped) time taken, divided by the time targeted. */
  function Ideal(previous: nat, timespan: int): int {
    Expand(previous) * Clamp(timespan) / TARGET_TIMESPAN
  }

  /** Quotient kept by the source: it divides by `TARGET_TIMESPAN >> 8` and takes one off the size. */
  function Quotient(previous: nat, timespan: int): int {
    MantissaOf(previous) * Clamp(timespan) / (TARGET_TIMESPAN / 256)
  }

  /** Shift right by bytes until the size is at least one and the mantissa fits 23 bits. */
  function Normalized(size: int, target: int): int
    decreases if size < 1 then 1 - size else 0, target
  {
    if size < 1 || target > 0x7f_ffff then Normalized(size + 1, target / 256)
    else Compose(size, target)
  }

  function Cap(c: int): int { if c > MAX_PROOF_OF_WORK then MAX_PROOF_OF_WORK else c }

  /** The compact target the source demands at a transition. */
  function Demanded(previous: nat, timespan: int): int {
    Cap(Normalized(SizeOf(previous) - 1, Quotient(previous, timespan)))
  }

  lemma QuotientRange(previous: nat, timespan: int)
    ensures 0 <= MantissaOf(previous) * Clamp(timespan) < TWO_64
    ensures 0 <= Quotient(previous, timespan) < 0x2_0010_0000
    ensures MantissaOf(previous) >= 0x8000 ==> Quotient(previous, timespan) >= 0x8000
  {
    ScaleRange(MantissaOf(previous), Clamp(timespan));
  }

  lemma ScaleRange(m: int, t: int)
    requires 0 <= m <= 0x7f_ffff && 302400 <= t <= 4838400
    ensures 0 <= m * t < TWO_64
    ensures 0 <= m * t / 4725 < 0x2_0010_0000
    ensures m >= 0x8000 ==> m * t / 4725 >= 0x8000
  {
    Division.Monotone(0, m, t);
    Division.Monotone(m, 0x7f_ffff, t);
    if m >= 0x8000 {
      Division.Monotone(0x8000, m, t);
    }
  }

  /** What normalising yields: the quotient shifted right by `k` bytes, at size `size + k`. */
  lemma {:induction false} NormalizedShift(size: nat, target: int) returns (k: nat)
    requires size >= 1 && target >= 0
    ensures target / Pow256(k) <= 0x7f_ffff
    ensures Normalized(size, target) == Compose(size + k, target / Pow256(k))
    ensures target >= 0x8000 ==> target / Pow256(k) >= 0x8000
    ensures target < 0x8000 ==> k == 0
    decreases target
  {
    if target > 0x7f_ffff {
      var j := NormalizedShift(size + 1, target / 256);
      k := j + 1;
      Division.DivideTwice(target, 256, Pow256(j));
    } else {
      k := 0;
    }
  }

  /** Exactness before the cap: the source's value is the canonical compact form of the ideal
      target iff the quotient has not lost its leading bits; for a previous target in canonical
      form it never has. */
  lemma RetargetExact(previous: nat, timespan: int)
    requires 4 <= SizeOf(previous) && !SignOf(previous)
    ensures IsCompactOf(Normalized(SizeOf(previous) - 1, Quotient(previous, timespan)), Ideal(previous, timespan))
       <==> Quotient(previous, timespan) >= 0x8000
    ensures Canonical(previous) ==> Quotient(previous, timespan) >= 0x8000
  {
    var size, q := SizeOf(previous), Quotient(previous, timespan);
    QuotientRange(previous, timespan);
    var k := NormalizedShift(size - 1, q);
    ComposeParts(size - 1 + k, q / Pow256(k));
    LeadingBytes(previous, timespan, k);
  }

  /** The leading bytes of the ideal target are those of the quotient. */
  lemma LeadingBytes(previous: nat, timespan: int, k: nat)
    requires 4 <= SizeOf(previous)
    ensures Ideal(previous, timespan) / Pow256(SizeOf(previous) - 4 + k) == Quotient(previous, timespan) / Pow256(k)
  {
    var e := SizeOf(previous) - 4;
    var p, x := Pow256(e), MantissaOf(previous) * Clamp(timespan);
    assert Pow256(e + 1) == 256 * p;
    IdealScaled(MantissaOf(previous), Clamp(timespan), p);
    Pow256Sum(e, k);
    ShiftedQuotient(x, p, Pow256(k));
  }

  /** `m * 256p * t / 1209600` drops the common factor 256. */
  lemma IdealScaled(m: int, t: int, p: int)
    ensures m * (256 * p) * t / TARGET_TIMESPAN == m * t * p / 4725
  {
    Division.Swap(m, 256 * p, t);
    Division.Associate(m * t, p, 256);
    assert p * 256 == 256 * p;
    Division.CancelFactor(m * t * p, 4725, 256);
  }

  lemma ShiftedQuotient(x: int, p: int, q: int)
    requires p > 0 && q > 0
    ensures p * q > 0 && (x * p / 4725) / (p * q) == (x / 4725) / q
  {
    Division.Monotone(1, p, q);
    Division.DivideTwice(x * p, 4725, p * q);
    Division.DivideTwice(x, 4725, q);
    Division.Associate(4725, q, p);
    assert p * q == q * p;
    Division.CancelFactor(x, 4725 * q, p);
  }

  /** Retarget exactness: from a canonical previous target of at least four bytes, no easier than
      the minimum difficulty, the demanded value is the canonical compact form of the ideal target
      capped at the minimum difficulty, and again canonical and no easier than that. */
  lemma DemandedIsIdeal(previous: nat, timespan: int)
    requires Canonical(previous) && 4 <= SizeOf(previous) && previous <= MAX_PROOF_OF_WORK
    ensures Demanded(previous, timespan) >= 0 && Canonical(Demanded(previous, timespan)) && Demanded(previous, timespan) <= MAX_PROOF_OF_WORK
    ensures if Ideal(previous, timespan) <= Expand(MAX_PROOF_OF_WORK)
            then IsCompactOf(Demanded(previous, timespan), Ideal(previous, timespan))
            else Demanded(previous, timespan) == MAX_PROOF_OF_WORK
  {
    var c, n := Normalized(SizeOf(previous) - 1, Quotient(previous, timespan)), Ideal(previous, timespan);
    RetargetExact(previous, timespan);
    CompactBounds(c, n);
    CompareAgrees(c, MAX_PROOF_OF_WORK);
    if n > Expand(MAX_PROOF_OF_WORK) && c < MAX_PROOF_OF_WORK {
      // c would not be the largest canonical value below n
      CompareStrict(c, MAX_PROOF_OF_WORK, n);
    }
  }

  lemma CompareStrict(c: int, d: nat, n: int)
    requires IsCompactOf(c, n) && Canonical(d) && c < d
    ensures n < Expand(d)
  {
    PartsCompose(c);
    PartsCompose(d);
    CompactBounds(c, n);
    CanonicalRange(d);
    var p := Pow256(SizeOf(c) - 3);
    Division.Distribute(MantissaOf(c), 1, p);
    if SizeOf(c) == SizeOf(d) {
      Division.Monotone(MantissaOf(c) + 1, MantissaOf(d), p);
    } else {
      Pow256Monotone(SizeOf(c) - 2, SizeOf(d) - 3);
      assert Pow256(SizeOf(c) - 2) == 256 * p;
      Division.Monotone(MantissaOf(c) + 1, 0x80_0000, p);
    }
  }

  /** Without a canonical previous target the demanded value can miss the canonical form. */
  lemma ShortMantissaMisses(previous: nat)
    requires previous == 0x1c000001
    ensures !IsCompactOf(Normalized(SizeOf(previous) - 1, Quotient(previous, 0)), Ideal(previous, 0))
  {
    hide Normalized, Ideal, IsCompactOf;
    assert SizeOf(previous) == 0x1c && MantissaOf(previous) == 1 && !SignOf(previous);
    RetargetExact(previous, 0);
  }
}

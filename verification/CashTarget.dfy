/** What target the Bitcoin Cash rule of bcash/BRBCashParams.c demands: 2^256 divided by the work per
    ten minutes, up to the rounding of the two floating byte scales. */
module CashTarget {
  import opened Wrappers
  import opened Bytes
  import opened Blocks
  import opened Retarget
  import opened Difficulty
  import opened CashWork
  import Division

  /** 2^256 in the units in which `Scaled` measures work. */
  function Whole(): nat { TWO_64 * Pow256(252) }

  /** What one more unit of the mantissa would add. */
  function LastPlace(c: nat): nat
    requires SizeOf(c) >= 3
  {
    Pow256(SizeOf(c) - 3)
  }

  // ----- projected work

  lemma {:induction false} ShiftToMeans(work: nat, size: int, limit: nat) returns (k: nat)
    ensures ShiftTo(work, size, limit).1 == size - k
    ensures var a := ShiftTo(work, size, limit).0;
            a * Pow256(k) <= work < (a + 1) * Pow256(k)
    ensures work <= limit ==> k == 0
    ensures work / 256 <= limit ==> k <= 1
    ensures work / 256 / 256 <= limit ==> k <= 2
    decreases work
  {
    if work <= limit {
      k := 0;
    } else {
      var j := ShiftToMeans(work / 256, size - 1, limit);
      k := j + 1;
      var a, p := ShiftTo(work, size, limit).0, Pow256(j);
      assert Pow256(k) == 256 * p;
      Division.Associate(a, p, 256);
      Division.Associate(a + 1, p, 256);
    }
  }

  /** For the time spans that occur the projected work falls short of the true one by less than two
      units, after at most two byte shifts; the second loop of shifts never runs. */
  lemma ProjectedMeans(work: nat, size: int, timespan: nat) returns (k: nat)
    requires work <= MAX_64 && 72 * 10 * 60 <= timespan <= 288 * 10 * 60
    ensures k <= 2
    ensures var (b, sizeB) := Projected(work, size, timespan);
            && sizeB == size - k && b <= MAX_64 / 0x8000
            && b * timespan * Pow256(k) <= 600 * work < (b + 2) * timespan * Pow256(k)
            && (b > 0 <==> 600 * work >= timespan)
  {
    k := ShiftToMeans(work, size, MAX_64 / 600);
    var a := ShiftTo(work, size, MAX_64 / 600).0;
    SmallQuotient(a, timespan);
    var b := a * 600 / timespan;
    var j := ShiftToMeans(b, size - k, MAX_64 / 0x8000);
    assert Projected(work, size, timespan) == (b, size - k);
    Division.QuotientBounds(a * 600, timespan);
    ProjectedBounds(work, a, b, timespan, Pow256(k));
    if work <= MAX_64 / 600 {
      assert a == work;
    } else {
      LargeStays(work, size, MAX_64 / 600);
    }
    PositiveQuotient(a, timespan);
  }

  lemma SmallQuotient(a: nat, timespan: nat)
    requires a <= MAX_64 / 600 && timespan >= 43200
    ensures 0 <= a * 600 / timespan <= MAX_64 / 0x8000
  {
    var b := a * 600 / timespan;
    Division.DivideMonotone(0, a * 600, timespan);
    Division.QuotientBounds(a * 600, timespan);
    Division.Monotone(43200, timespan, b);
    assert b * 43200 <= MAX_64;
  }

  lemma PositiveQuotient(a: nat, timespan: nat)
    requires timespan > 0
    ensures a * 600 / timespan > 0 <==> 600 * a >= timespan
  {
    Division.QuotientBounds(a * 600, timespan);
    if a * 600 >= timespan {
      Division.DivideMonotone(timespan, a * 600, timespan);
    } else {
      Division.QuotientUnique(a * 600, timespan, 0);
    }
  }

  lemma {:induction false} LargeStays(work: nat, size: int, limit: nat)
    requires work > limit >= 1000000
    ensures ShiftTo(work, size, limit).0 >= limit / 256
    decreases work
  {
    if work / 256 > limit {
      LargeStays(work / 256, size - 1, limit);
    }
  }

  lemma ProjectedBounds(work: nat, a: nat, b: nat, timespan: nat, p: nat)
    requires p > 0 && timespan >= 600
    requires a * p <= work < (a + 1) * p
    requires b * timespan <= a * 600 < (b + 1) * timespan
    ensures b * timespan * p <= 600 * work < (b + 2) * timespan * p
  {
    Division.Monotone(b * timespan, a * 600, p);
    Division.Swap(a, 600, p);
    Division.Distribute(b + 1, 1, timespan);
    Division.Monotone((a + 1) * 600, (b + 2) * timespan, p);
    Division.Swap(a + 1, 600, p);
  }

  // ----- its inverse

  /** The mantissa is the quotient of 2^64 by the projected work, cut after its leading bytes. */
  lemma InverseMeans(b: nat, sizeB: int) returns (j: nat)
    requires 0 < b <= MAX_64 / 0x8000 && sizeB >= 3
    ensures var t := Normalized(sizeB, Quotient64(b));
            && t >= 0 && Canonical(t) && SizeOf(t) == sizeB + j
            && MantissaOf(t) * Pow256(j) * b < TWO_64 <= (MantissaOf(t) + 1) * Pow256(j) * b
  {
    var q := Quotient64(b);
    LargeQuotient(b);
    j := NormalizedShift(sizeB, q);
    QuotientIsNatural(q, Pow256(j));
    ComposeParts(sizeB + j, q / Pow256(j));
    InverseCut(b, q / Pow256(j), Pow256(j));
  }

  lemma LargeQuotient(b: nat)
    requires 0 < b <= MAX_64 / 0x8000
    ensures MAX_64 / b >= 0x8000
  {
    Division.QuotientBounds(MAX_64, b);
    if MAX_64 / b < 0x8000 {
      Division.Monotone(MAX_64 / b + 1, 0x8000, b);
      assert false;
    }
  }

  /** Both together, on plain numbers: `m * r` is the target, `x / (ts * p)` the projected work. */
  lemma InverseBounds(m: nat, r: nat, b: nat, x: nat, ts: nat, p: nat)
    requires r > 0 && b > 0 && ts > 0 && p > 0
    requires m * r * b < TWO_64 <= (m + 1) * r * b
    requires b * ts * p <= x < (b + 2) * ts * p
    ensures m * r * (x - 2 * ts * p) < TWO_64 * ts * p <= (m + 1) * r * x
  {
    var n, s, y := m * r, (m + 1) * r, ts * p;
    Positive(ts, p);
    Positive(m + 1, r);
    assert b * ts * p == b * y && (b + 2) * ts * p == (b + 2) * y && 2 * ts * p == 2 * y && TWO_64 * ts * p == TWO_64 * y by {
      Division.Associate(b, ts, p);
      Division.Associate(b + 2, ts, p);
      Division.Associate(2, ts, p);
      Division.Associate(TWO_64, ts, p);
    }
    Division.Distribute(b, 2, y);
    if m == 0 {
      Positive(TWO_64, y);
    } else {
      Positive(m, r);
      TimesLess(n, x - 2 * y, b * y);
      Division.Associate(n, b, y);
      TimesLess(y, n * b, TWO_64);
    }
    Division.Monotone(TWO_64, s * b, y);
    Division.Associate(s, b, y);
    Division.Monotone(b * y, x, s);
  }

  lemma Positive(a: nat, b: nat)
    requires a > 0 && b > 0
    ensures a * b > 0
  {
  }

  lemma TimesLess(n: nat, a: int, b: int)
    requires n > 0 && a < b
    ensures n * a < n * b
  {
  }

  /** Normalising at any scale, also one below 1, where bytes are shifted out until the size is 1. */
  lemma {:induction false} NormalizedAnywhere(size: int, target: nat) returns (j: nat)
    ensures size + j >= 1 && target / Pow256(j) <= 0x7f_ffff
    ensures Normalized(size, target) == Compose(size + j, target / Pow256(j))
    ensures j > 0 && size + j > 1 ==> target / Pow256(j - 1) > 0x7f_ffff
    decreases if size < 1 then 1 - size else 0, target
  {
    if size < 1 || target > 0x7f_ffff {
      var i := NormalizedAnywhere(size + 1, target / 256);
      j := i + 1;
      Division.DivideTwice(target, 256, Pow256(i));
      if i > 0 {
        Division.DivideTwice(target, 256, Pow256(i - 1));
      }
    } else {
      j := 0;
    }
  }

  /** At every scale: the mantissa is 2^64 divided by the work per ten minutes, shifted right by `j` bytes,
      within two units of the work and one of its own. */
  lemma TargetAtAnyScale(work: nat, size: int, timespan: nat) returns (k: nat, j: nat)
    requires work <= MAX_64 && 72 * 10 * 60 <= timespan <= 288 * 10 * 60 && 600 * work >= timespan
    ensures k <= 2
    ensures var t := Uncapped(work, size, timespan);
            && t >= 0 && !SignOf(t) && SizeOf(t) == size - k + j >= 1
            && MantissaOf(t) * Pow256(j) * (600 * work - 2 * timespan * Pow256(k)) < TWO_64 * timespan * Pow256(k)
            && TWO_64 * timespan * Pow256(k) <= (MantissaOf(t) + 1) * Pow256(j) * (600 * work)
            && (j > 6 ==> SizeOf(t) == 1)
  {
    hide Projected, Normalized, Quotient64;
    k := ProjectedMeans(work, size, timespan);
    var (b, sizeB) := Projected(work, size, timespan);
    var q := Quotient64(b);
    j := NormalizedAnywhere(sizeB, q);
    var m, r := q / Pow256(j), Pow256(j);
    QuotientIsNatural(q, r);
    ComposeParts(sizeB + j, m);
    InverseCut(b, m, r);
    InverseBounds(m, r, b, 600 * work, timespan, Pow256(k));
    if j > 6 {
      FewBytes(q, j - 1);
    }
  }

  lemma QuotientIsNatural(q: nat, r: nat)
    requires r > 0
    ensures q / r >= 0
  {
  }

  /** Cutting the quotient of 2^64 leaves it within one unit of what is kept. */
  lemma InverseCut(b: nat, m: nat, r: nat)
    requires b > 0 && r > 0 && m == Quotient64(b) / r
    ensures m * r * b < TWO_64 <= (m + 1) * r * b
  {
    var q := Quotient64(b);
    Division.QuotientBounds(MAX_64, b);
    Division.QuotientBounds(q, r);
    Division.Monotone(m * r, q, b);
    Division.Monotone(q + 1, (m + 1) * r, b);
  }

  lemma FewBytes(q: nat, i: nat)
    requires q <= MAX_64 && i >= 6
    ensures q / Pow256(i) <= 0x7f_ffff
  {
    Pow256Monotone(6, i);
    assert Pow256(6) == 0x1_0000_0000_0000;
    Division.QuotientBounds(q, Pow256(i));
    if q / Pow256(i) > 0x7f_ffff {
      Division.Monotone(0x80_0000, q / Pow256(i), Pow256(i));
      assert false;
    }
  }

  /** Scales below 5 are too low for the cap to matter. */
  lemma LowScaleIsUncapped(work: nat, size: int, timespan: nat)
    requires work <= MAX_64 && 72 * 10 * 60 <= timespan <= 288 * 10 * 60 && 600 * work >= timespan && size < 5
    ensures TargetForWork(work, size, timespan) == Uncapped(work, size, timespan)
  {
    hide Uncapped;
    var k, j := TargetAtAnyScale(work, size, timespan);
  }

  // ----- in numbers

  /** The target is at most 2^256 divided by the work per ten minutes less `slack`, and one more in
      its last place would be at least the undiminished quotient.  `projected` is that work times the
      time span. */
  predicate Inverts(t: int, projected: int, slack: int, timespan: nat) {
    && t >= 0 && Canonical(t)
    && Expand(t) * (projected - slack) < timespan * Whole()
    && timespan * Whole() <= (Expand(t) + LastPlace(t)) * projected
  }

  /** Before the cap, the demanded target inverts the work at hand, within two units of its scale
      (after at most two byte shifts) and one of the target's last place. */
  lemma TargetInvertsWork(work: nat, size: int, timespan: nat) returns (k: nat)
    requires work <= MAX_64 && 5 <= size <= 0x1d && 72 * 10 * 60 <= timespan <= 288 * 10 * 60
    requires 600 * work >= timespan
    ensures k <= 2
    ensures Inverts(Uncapped(work, size, timespan), 600 * Scaled(work, size), 2 * timespan * Unit(size - k), timespan)
  {
    hide Projected, Normalized, Quotient64, Inverts, Pow256, Scaled, Unit;
    k := ProjectedMeans(work, size, timespan);
    var (b, sizeB) := Projected(work, size, timespan);
    var j := InverseMeans(b, sizeB);
    var t := Uncapped(work, size, timespan);
    InverseBounds(MantissaOf(t), Pow256(j), b, 600 * work, timespan, Pow256(k));
    InNumbers(t, j, k, size, work, timespan);
  }

  lemma InNumbers(t: nat, j: nat, k: nat, size: int, work: nat, ts: nat)
    requires k <= 2 && 5 <= size <= 0x1d && Canonical(t) && SizeOf(t) == size - k + j
    requires MantissaOf(t) * Pow256(j) * (600 * work - 2 * ts * Pow256(k)) < TWO_64 * ts * Pow256(k)
    requires TWO_64 * ts * Pow256(k) <= (MantissaOf(t) + 1) * Pow256(j) * (600 * work)
    ensures Inverts(t, 600 * Scaled(work, size), 2 * ts * Unit(size - k), ts)
  {
    hide Pow256, Scaled, Unit, Whole;
    var m, y := MantissaOf(t), Pow256(252 - k);
    Rescaled(m, j, k, size, work, ts);
    Rescaled(m + 1, j, k, size, work, ts);
    Division.Distribute(m, 1, LastPlace(t));
    TimesLess(y, m * Pow256(j) * (600 * work - 2 * ts * Pow256(k)), TWO_64 * ts * Pow256(k));
    TimesAtMost(y, TWO_64 * ts * Pow256(k), (m + 1) * Pow256(j) * (600 * work));
  }

  lemma TimesAtMost(n: int, a: int, b: int)
    requires n >= 0 && a <= b
    ensures n * a <= n * b
  {
  }

  /** Carrying the bounds over to the scale of `Whole`. */
  lemma Rescaled(m: nat, j: nat, k: nat, size: int, work: nat, ts: nat)
    requires k <= 2 && 5 <= size <= 0x1d
    ensures var e, y, p, r := m * Pow256(size - k + j - 3), Pow256(252 - k), Pow256(k), Pow256(j);
            && ts * Whole() == y * (TWO_64 * ts * p)
            && e * (600 * Scaled(work, size)) == y * (m * r * (600 * work))
            && e * (600 * Scaled(work, size) - 2 * ts * Unit(size - k)) == y * (m * r * (600 * work - 2 * ts * p))
  {
    RescaledPowers(j, k, size);
    hide Pow256, Unit;
    var f, u := Pow256(size - k + j - 3), Unit(size);
    var y, p, r := Pow256(252 - k), Pow256(k), Pow256(j);
    RescaledAlgebra(m, f, u, y, p, r, 600 * work, ts);
    Division.Associate(600, work, u);
  }

  lemma RescaledPowers(j: nat, k: nat, size: int)
    requires k <= 2 && 5 <= size <= 0x1d
    ensures Pow256(size - k + j - 3) * Unit(size) == Pow256(j) * Pow256(252 - k)
    ensures Pow256(252) == Pow256(k) * Pow256(252 - k) && Unit(size - k) == Pow256(k) * Unit(size)
  {
    hide Pow256;
    Pow256Sum(k, 252 - k);
    Pow256Sum(size - k + j - 3, 255 - size);
    Pow256Sum(j, 252 - k);
    Pow256Sum(k, 255 - size);
  }

  lemma RescaledAlgebra(m: int, f: int, u: int, y: int, p: int, r: int, x: int, ts: int)
    requires f * u == r * y
    ensures ts * (TWO_64 * (p * y)) == y * (TWO_64 * ts * p)
    ensures m * f * (x * u) == y * (m * r * x)
    ensures m * f * (x * u - 2 * ts * (p * u)) == y * (m * r * (x - 2 * ts * p))
  {
    Product(m, f, u, y, r, x);
    Product(m, f, u, y, r, x - 2 * ts * p);
    Division.Distribute(x, -(2 * ts * p), u);
    Division.Associate(2 * ts, p, u);
    Wholes(ts, p, y);
  }

  lemma Wholes(ts: int, p: int, y: int)
    ensures ts * (TWO_64 * (p * y)) == y * (TWO_64 * ts * p)
  {
    Division.Associate(TWO_64 * ts, p, y);
  }

  lemma Product(m: int, f: int, u: int, y: int, r: int, x: int)
    requires f * u == r * y
    ensures m * f * (x * u) == y * (m * r * x)
  {
    assert m * f * (x * u) == m * x * (f * u);
    assert m * x * (r * y) == y * (m * r * x);
  }

  /** The target demanded for work at hand is canonical, and as a number the smaller of that quotient
      and the largest target allowed. */
  lemma TargetIsCapped(work: nat, size: int, timespan: nat)
    requires work <= MAX_64 && 5 <= size <= 0x1d && 72 * 10 * 60 <= timespan <= 288 * 10 * 60
    requires 600 * work >= timespan
    ensures var t, c := Uncapped(work, size, timespan), TargetForWork(work, size, timespan);
            && t >= 0 && c >= 0 && Canonical(c) && c <= MAX_PROOF_OF_WORK
            && Expand(c) == if Expand(t) <= Expand(MAX_PROOF_OF_WORK) then Expand(t) else Expand(MAX_PROOF_OF_WORK)
  {
    var k := TargetInvertsWork(work, size, timespan);
    hide Uncapped, Expand;
    assert Canonical(MAX_PROOF_OF_WORK);
    CompareAgrees(Uncapped(work, size, timespan), MAX_PROOF_OF_WORK);
    if Uncapped(work, size, timespan) == MAX_PROOF_OF_WORK {
    }
  }

  /** With less than a unit of work per ten minutes, the quotient is taken to be the largest word. */
  lemma NoWorkToInvert(work: nat, size: int, timespan: nat)
    requires work <= MAX_64 && 72 * 10 * 60 <= timespan <= 288 * 10 * 60 && 600 * work < timespan
    ensures TargetForWork(work, size, timespan) == Cap(Normalized(size, MAX_64))
  {
    hide Normalized;
    var k := ProjectedMeans(work, size, timespan);
    assert ShiftTo(work, size, MAX_64 / 600) == (work, size);
    PositiveQuotient(work, timespan);
  }

  /** End to end, for `n > 0` walked blocks: the target before the cap inverts the exact sum of their
      works, within `2n` units of the sum, two of the projection, and one of the target's last place. */
  lemma TargetInvertsExactWork(walked: seq<Block>, timespan: nat) returns (k: nat)
    requires |walked| > 0 && forall b :: b in walked ==> b.target < TWO_32
    requires 72 * 10 * 60 <= timespan <= 288 * 10 * 60
    requires WorkOf(walked).1 >= 5 && 600 * WorkOf(walked).0 >= timespan
    ensures k <= 2
    ensures var (work, size) := WorkOf(walked);
            && size <= 0x1d
            && Inverts(Uncapped(work, size, timespan), 600 * ExactWork(walked),
                       600 * (2 * |walked| * Unit(size)) + 2 * timespan * Unit(size - k), timespan)
  {
    hide WorkOf, ExactWork, Uncapped, Unit, Inverts, Scaled;
    WorkBound(walked);
    var (work, size) := WorkOf(walked);
    k := TargetInvertsWork(work, size, timespan);
    InvertsMore(Uncapped(work, size, timespan), 600 * Scaled(work, size), 2 * timespan * Unit(size - k),
                600 * ExactWork(walked), 600 * (2 * |walked| * Unit(size)) + 2 * timespan * Unit(size - k), timespan);
  }

  /** More work, with the slack grown as much, is inverted as well. */
  lemma InvertsMore(t: int, projected: int, slack: int, projected': int, slack': int, timespan: nat)
    requires Inverts(t, projected, slack, timespan)
    requires projected <= projected' && projected' - slack' <= projected - slack
    ensures Inverts(t, projected', slack', timespan)
  {
    hide Expand, LastPlace, Whole;
    ExpandIsPositive(t);
    TimesAtMost(Expand(t), projected' - slack', projected - slack);
    TimesAtMost(Expand(t) + LastPlace(t), projected, projected');
  }

  lemma ExpandIsPositive(t: nat)
    requires Canonical(t)
    ensures Expand(t) >= 0
  {
    CanonicalRange(t);
  }
}

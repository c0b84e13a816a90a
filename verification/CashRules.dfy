/** The parts of the Bitcoin Cash difficulty rule of bcash/BRBCashParams.c as numbers: the work of a block, the median of
    three, and the time span. */
module CashRules {
  import opened Wrappers
  import opened Bytes
  import opened Blocks
  import opened Retarget
  import opened CashWork
  import opened CashTarget
  import Division

  /** The work of a block is the largest multiple of its unit that, times the target, stays below 2^256 (in the units of
      `Scaled`); without a mantissa it is all a word holds. */
  lemma WorkInvertsTarget(target: nat)
    requires target < TWO_32 && SizeOf(target) >= 3
    ensures MantissaOf(target) != 0 ==> BlockWork(target) * Expand(target) < Whole() <= (BlockWork(target) + Unit(SizeOf(target))) * Expand(target)
    ensures MantissaOf(target) == 0 ==> BlockWork(target) == 0xffff_ffff_ffff_ffff * Unit(SizeOf(target))
  {
    var m, s := MantissaOf(target), SizeOf(target);
    if m != 0 {
      UnitsMeet(s);
      WorkIs(target);
      hide Pow256, Unit, BlockWork, Expand, Whole;
      WorkTimes(UnitWork(target), m, Unit(s), Pow256(s - 3), MAX_64);
    }
  }

  lemma UnitsMeet(s: nat)
    requires 3 <= s <= 255
    ensures Whole() == (MAX_64 + 1) * (Unit(s) * Pow256(s - 3)) && Unit(s) > 0 && Pow256(s - 3) > 0
  {
    Pow256Sum(255 - s, s - 3);
    hide Pow256;
  }

  lemma WorkIs(target: nat)
    requires target < TWO_32 && SizeOf(target) >= 3 && MantissaOf(target) != 0
    ensures SizeOf(target) <= 255 && BlockWork(target) == UnitWork(target) * Unit(SizeOf(target))
    ensures Expand(target) == MantissaOf(target) * Pow256(SizeOf(target) - 3)
    ensures UnitWork(target) * MantissaOf(target) <= MAX_64 < (UnitWork(target) + 1) * MantissaOf(target)
  {
    Division.QuotientBounds(MAX_64, MantissaOf(target));
    hide Pow256, Unit;
  }

  lemma WorkTimes(w: nat, m: nat, u: nat, e: nat, max: nat)
    requires w * m <= max < (w + 1) * m && u > 0 && e > 0
    ensures (w * u) * (m * e) < (max + 1) * (u * e) <= (w * u + u) * (m * e)
  {
    Regrouped(w, u, m, e);
    Regrouped(w + 1, u, m, e);
    Division.Distribute(w, 1, u);
    Division.Monotone(1, u, e);
    LessTimes(w * m, max + 1, u * e);
    Division.Monotone(max + 1, (w + 1) * m, u * e);
  }

  lemma Regrouped(w: int, u: int, m: int, e: int)
    ensures (w * u) * (m * e) == (w * m) * (u * e)
  {
    Division.Associate(w * u, m, e);
    Division.Swap(w, u, m);
    Division.Associate(w * m, u, e);
  }

  lemma LessTimes(a: int, b: int, p: int)
    requires a < b && p > 0
    ensures a * p < b * p
  {
  }

  function One(b: bool): nat { if b then 1 else 0 }

  /** How many of three blocks are no later, and no earlier, than `m`. */
  function NoLater(m: Block, b0: Block, b1: Block, b2: Block): nat {
    One(b0.timestamp <= m.timestamp) + One(b1.timestamp <= m.timestamp) + One(b2.timestamp <= m.timestamp)
  }

  function NoEarlier(m: Block, b0: Block, b1: Block, b2: Block): nat {
    One(b0.timestamp >= m.timestamp) + One(b1.timestamp >= m.timestamp) + One(b2.timestamp >= m.timestamp)
  }

  /** A median of three blocks is one of them than which two are no later and two no earlier. */
  lemma MedianExactly(m: Block, b0: Block, b1: Block, b2: Block)
    ensures IsMedian(m, b0, b1, b2)
       <==> (m == b0 || m == b1 || m == b2) && NoLater(m, b0, b1, b2) >= 2 && NoEarlier(m, b0, b1, b2) >= 2
  {
  }

  /** So the rule counts from the middle, in time, of the three blocks before the one checked to the middle of the three
      144 further down. */
  lemma MedianAtExactly(blocks: BlockSet, block: Block, a: nat, m: Block)
    requires Ancestor(blocks, block, a + 2).Some?
    ensures Ancestor(blocks, block, a).Some? && Ancestor(blocks, block, a + 1).Some?
    ensures var b0, b1, b2 := Ancestor(blocks, block, a).value, Ancestor(blocks, block, a + 1).value, Ancestor(blocks, block, a + 2).value;
            IsMedianAt(blocks, block, a, Some(m))
            <==> (m == b0 || m == b1 || m == b2) && NoLater(m, b0, b1, b2) >= 2 && NoEarlier(m, b0, b1, b2) >= 2
  {
    AncestorPrefix(blocks, block, a, a + 2);
    AncestorPrefix(blocks, block, a + 1, a + 2);
    MedianExactly(m, Ancestor(blocks, block, a).value, Ancestor(blocks, block, a + 1).value, Ancestor(blocks, block, a + 2).value);
    hide Ancestor, IsMedian;
  }

  /** The time span is kept between half a day and two days. */
  lemma SpanExactly(timespan: int)
    ensures ClampCash(timespan) == if timespan < 43200 then 43200 else if timespan > 172800 then 172800 else timespan
  {
  }
}

/** The Bitcoin Cash difficulty check of bcash/BRBCashParams.c: median blocks, and work summed
    up in 64 bits at a scale that shifts by whole bytes. */
module CashWork {
  import opened Wrappers
  import opened Bytes
  import opened Blocks
  import opened Retarget
  import opened Difficulty
  import Division

  const MAX_64: nat := 0xffff_ffff_ffff_ffff
  const FORK_HEIGHT: nat := 504032

  // ----- median block

  /** `m` is one of the three blocks, one of the others is no later and one no earlier. */
  ghost predicate IsMedian(m: Block, b0: Block, b1: Block, b2: Block) {
    || (m == b0 && Between(b0, b1, b2))
    || (m == b1 && Between(b1, b0, b2))
    || (m == b2 && Between(b2, b0, b1))
  }

  predicate Between(m: Block, x: Block, y: Block) {
    x.timestamp <= m.timestamp <= y.timestamp || y.timestamp <= m.timestamp <= x.timestamp
  }

  /** `_medianBlock`: of `b` and its two predecessors, the one with the median timestamp. */
  method MedianBlock(b: Option<Block>, blocks: BlockSet) returns (m: Option<Block>)
    ensures b.None? ==> m.None?
    ensures b.Some? ==> (m.Some? <==> Ancestor(blocks, b.value, 2).Some?)
    ensures m.Some? ==> IsMedian(m.value, b.value, Ancestor(blocks, b.value, 1).value, Ancestor(blocks, b.value, 2).value)
  {
    var b2 := b;
    var b1 := if b2.Some? then Get(blocks, b2.value.prevBlock) else None;
    var b0 := if b1.Some? then Get(blocks, b1.value.prevBlock) else None;
    if b0.Some? && b2.Some? && b0.value.timestamp > b2.value.timestamp {
      b0, b2 := b2, b0;
    }
    if b0.Some? && b1.Some? && b0.value.timestamp > b1.value.timestamp {
      b0, b1 := b1, b0;
    }
    if b1.Some? && b2.Some? && b1.value.timestamp > b2.value.timestamp {
      b1, b2 := b2, b1;
    }
    if b.Some? {
      TwoSteps(blocks, b.value);
    }
    m := if b0.Some? && b1.Some? && b2.Some? then b1 else None;
  }

  lemma TwoSteps(blocks: BlockSet, b: Block)
    ensures var p := Get(blocks, b.prevBlock);
            && Ancestor(blocks, b, 1) == p
            && Ancestor(blocks, b, 2) == if p.Some? then Get(blocks, p.value.prevBlock) else None
  {
    AncestorStep(blocks, b, 0);
    if Ancestor(blocks, b, 1).Some? {
      AncestorStep(blocks, b, 1);
    }
  }

  // ----- exact work

  /** The work of one block in units of `256^(27 - size)`, as 64 bits hold it. */
  function UnitWork(target: nat): (w: nat)
    ensures w <= MAX_64
  {
    if MantissaOf(target) != 0 then Quotient64(MantissaOf(target)) else MAX_64
  }

  function Quotient64(t: nat): (w: nat)
    requires t > 0
    ensures w <= MAX_64
  {
    Division.DivideMonotone(0, MAX_64, t);
    Division.QuotientBounds(MAX_64, t);
    Division.Monotone(1, t, MAX_64 / t);
    MAX_64 / t
  }

  /** The unit at scale `size`.  Sizes are at most 255, so all units are whole numbers. */
  function Unit(size: int): nat
    requires size <= 255
  {
    Pow256(255 - size)
  }

  /** What `work` stands for at scale `size`. */
  function Scaled(work: nat, size: int): (r: nat)
    requires size <= 255
  {
    Division.Monotone(0, work, Unit(size));
    work * Unit(size)
  }

  /** The work of one block, at its own scale. */
  function BlockWork(target: nat): nat
    requires target < TWO_32
  {
    Scaled(UnitWork(target), SizeOf(target))
  }

  /** The sum of the works of `walked`, exactly: each block's work at its own scale. */
  function ExactWork(walked: seq<Block>): nat
    requires forall b :: b in walked ==> b.target < TWO_32
  {
    if walked == [] then 0
    else ExactWork(walked[..|walked| - 1]) + BlockWork(walked[|walked| - 1].target)
  }

  /** `work` at scale `size` falls short of `exact` by at most `slack` times (one unit less one). */
  ghost predicate Approximates(exact: int, work: nat, size: int, slack: nat)
    requires size <= 255
  {
    0 <= exact - Scaled(work, size) <= slack * (Unit(size) - 1)
  }

  /** `work` at scale `size` came from `exact`, at scale `from`, by byte shifts. */
  ghost predicate Shifted(exact: int, work: nat, size: int, from: int)
    requires size <= 255 && from <= 255
  {
    && Unit(from) <= Unit(size)
    && 0 <= exact - Scaled(work, size) <= Unit(size) - Unit(from)
  }

  lemma ShiftedNot(work: nat, size: int)
    requires size <= 255
    ensures Shifted(Scaled(work, size), work, size, size)
  {
  }

  /** Shifting right by one byte loses less than a unit of the new scale. */
  lemma ShiftByte(exact: int, work: nat, size: int, from: int)
    requires size <= 255 && from <= 255
    requires Shifted(exact, work, size, from)
    ensures Shifted(exact, work / 256, size - 1, from)
  {
    var u, q, r := Unit(size), work / 256, work % 256;
    assert Unit(size - 1) == 256 * u;
    Division.Distribute(256 * q, r, u);
    Division.Associate(q, 256, u);
    assert work == q * 256 + r;
    Division.Monotone(0, r, u);
    Division.Monotone(r, 255, u);
  }

  /** Adding two shifted numbers at a common scale costs two units of slack. */
  lemma AddShifted(exact: int, work0: nat, size0: int, slack: nat, own: int, sz0: int,
                   work: nat, w: nat, size: int)
    requires size0 <= 255 && sz0 <= 255 && size <= 255
    requires Approximates(exact, work0, size0, slack)
    requires Shifted(Scaled(work0, size0), work, size, size0)
    requires Shifted(own, w, size, sz0)
    ensures Approximates(exact + own, work + w, size, slack + 2)
  {
    var u, v := Unit(size0), Unit(size);
    Division.Distribute(work, w, v);
    Division.Monotone(u - 1, v - 1, slack);
    assert slack * (u - 1) <= slack * (v - 1);
    Division.Distribute(slack, 2, v - 1);
  }

  // ----- one block

  /** `work` shifted right by `n` bytes. */
  function Dropped(work: nat, n: nat): (r: nat)
    ensures r <= work
  {
    if n == 0 then work else Dropped(work / 256, n - 1)
  }

  /** `work` at scale `size` and `w` at scale `sz` brought to their smaller scale, or the one below
      if their sum would not fit 64 bits, and added. */
  function Plus(work: nat, size: int, w: nat, sz: int): (nat, int) {
    var s := if size < sz then size else sz;
    var a, b := Dropped(work, size - s), Dropped(w, sz - s);
    if a + b > MAX_64 then (a / 256 + b / 256, s - 1) else (a + b, s)
  }

  /** The two loops that bring a number down to a scale: one byte shift for each step of the scale. */
  method ShiftDown(work0: nat, size0: int, scale: int) returns (work: nat, size: int)
    ensures size == if scale < size0 then scale else size0
    ensures work == Dropped(work0, size0 - size)
  {
    hide Dropped;
    work, size := work0, size0;
    ghost var least := if scale < size0 then scale else size0;
    while scale < size
      invariant least <= size
      invariant scale < size0 ==> scale <= size
      invariant size0 <= scale ==> size == size0
      invariant Dropped(work, size - least) == Dropped(work0, size0 - least)
    {
      DropOne(work, size - least);
      work, size := work / 256, size - 1;
    }
    DropNone(work);
  }

  /** The body of the accumulation loop: adds the block's own work. */
  method AddWork(work0: nat, size0: int, target: nat) returns (work: nat, size: int)
    requires work0 <= MAX_64 && target < TWO_32
    ensures (work, size) == Plus(work0, size0, UnitWork(target), SizeOf(target))
    ensures work <= MAX_64
  {
    hide Quotient64, Dropped;
    var sz, t := target / 0x100_0000, target % 0x80_0000;
    var w: nat := if t != 0 then Quotient64(t) else MAX_64;
    work, size := ShiftDown(work0, size0, sz);
    w, sz := ShiftDown(w, sz, size);
    work, size := AddAtScale(work, w, size);
  }

  /** The end of the loop's body: one byte shift, if needed, makes the sum fit. */
  method AddAtScale(work0: nat, w0: nat, size0: int) returns (work: nat, size: int)
    requires work0 <= MAX_64 && w0 <= MAX_64
    ensures (work, size) == if work0 + w0 > MAX_64 then (work0 / 256 + w0 / 256, size0 - 1) else (work0 + w0, size0)
    ensures work <= MAX_64
  {
    work, size := work0, size0;
    var w := w0;
    while (work + w) % TWO_64 < w  // the sum wraps
      invariant work <= MAX_64 && w <= MAX_64
      invariant || (work, w, size) == (work0, w0, size0)
                || (work0 + w0 > MAX_64 && (work, w, size) == (work0 / 256, w0 / 256, size0 - 1))
      decreases size - size0 + 1
    {
      w, work, size := w / 256, work / 256, size - 1;
    }
    work := work + w;
  }

  lemma DropOne(work: nat, n: nat)
    requires n > 0
    ensures Dropped(work, n) == Dropped(work / 256, n - 1)
  {
  }

  lemma DropNone(work: nat)
    ensures Dropped(work, 0) == work
  {
  }

  lemma {:induction false} DroppedIsShifted(exact: int, work: nat, size: int, from: int, n: nat)
    requires size <= 255 && from <= 255 && Shifted(exact, work, size, from)
    ensures Shifted(exact, Dropped(work, n), size - n, from)
    decreases n
  {
    hide Shifted;
    if n > 0 {
      ShiftByte(exact, work, size, from);
      DroppedIsShifted(exact, work / 256, size - 1, from, n - 1);
    }
  }

  /** Adding a block's work loses less than two units. */
  lemma PlusApproximates(exact: int, work: nat, size: int, target: nat, slack: nat)
    requires work <= MAX_64 && size <= 255 && target < TWO_32 && Approximates(exact, work, size, slack)
    ensures var (work', size') := Plus(work, size, UnitWork(target), SizeOf(target));
            && work' <= MAX_64 && size' <= size
            && Approximates(exact + BlockWork(target), work', size', slack + 2)
  {
    hide Pow256, Unit, Scaled, Shifted, Approximates, UnitWork, Dropped;
    var w, sz := UnitWork(target), SizeOf(target);
    var s := if size < sz then size else sz;
    var a, b := Dropped(work, size - s), Dropped(w, sz - s);
    ShiftedNot(work, size);
    ShiftedNot(w, sz);
    DroppedIsShifted(Scaled(work, size), work, size, size, size - s);
    DroppedIsShifted(BlockWork(target), w, sz, sz, sz - s);
    if a + b > MAX_64 {
      ShiftByte(Scaled(work, size), a, s, size);
      ShiftByte(BlockWork(target), b, s, sz);
      AddShifted(exact, work, size, slack, BlockWork(target), sz, a / 256, b / 256, s - 1);
    } else {
      AddShifted(exact, work, size, slack, BlockWork(target), sz, a, b, s);
    }
  }

  /** The works of `walked` summed up as the loop does, with the scale reached. */
  function WorkOf(walked: seq<Block>): (nat, int) {
    if walked == [] then (0, 0x1d)
    else
      var (work, size), target := WorkOf(walked[..|walked| - 1]), walked[|walked| - 1].target;
      Plus(work, size, UnitWork(target), SizeOf(target))
  }

  lemma NoWork()
    ensures WorkOf([]) == (0, 0x1d)
  {
  }

  lemma WorkAppend(walked: seq<Block>, b: Block)
    ensures WorkOf(walked + [b]) == Plus(WorkOf(walked).0, WorkOf(walked).1, UnitWork(b.target), SizeOf(b.target))
  {
    hide Plus, UnitWork;
    assert (walked + [b])[..|walked|] == walked;
  }

  lemma {:induction false} WorkApproximates(walked: seq<Block>)
    requires forall b :: b in walked ==> b.target < TWO_32
    ensures var (work, size) := WorkOf(walked);
            && work <= MAX_64 && size <= 0x1d
            && Approximates(ExactWork(walked), work, size, 2 * |walked|)
    decreases |walked|
  {
    hide Plus, UnitWork, BlockWork;
    if walked == [] {
      NothingWalked();
    } else {
      var init, b := walked[..|walked| - 1], walked[|walked| - 1];
      hide Approximates;
      WorkApproximates(init);
      assert b in walked;
      var (work, size) := WorkOf(init);
      PlusApproximates(ExactWork(init), work, size, b.target, 2 * |init|);
    }
  }

  lemma NothingWalked()
    ensures Approximates(0, 0, 0x1d, 0)
  {
  }

  /** Over `n > 0` walked blocks the accumulated work never exceeds the exact sum, and is below it
      by less than `2n` units of the final scale. */
  lemma WorkBound(walked: seq<Block>)
    requires |walked| > 0 && forall b :: b in walked ==> b.target < TWO_32
    ensures var (work, size) := WorkOf(walked);
            && work <= MAX_64 && size <= 0x1d
            && Scaled(work, size) <= ExactWork(walked) < Scaled(work, size) + 2 * |walked| * Unit(size)
  {
    hide WorkOf, ExactWork;
    WorkApproximates(walked);
    var n, u := 2 * |walked|, Unit(WorkOf(walked).1);
    assert n * (u - 1) == n * u - n;
  }

  // ----- the walk

  /** The blocks visited from `last` until `n` steps are done. */
  function Walked(blocks: BlockSet, last: Block, n: nat): seq<Block>
    requires Ancestor(blocks, last, n).Some?
  {
    if n == 0 then []
    else
      AncestorPrefix(blocks, last, n - 1, n);
      Walked(blocks, last, n - 1) + [Ancestor(blocks, last, n - 1).value]
  }

  lemma {:induction false} WalkedTargets(blocks: BlockSet, last: Block, n: nat)
    requires Ancestor(blocks, last, n).Some?
    requires last.target < TWO_32 && forall h :: h in blocks ==> blocks[h].target < TWO_32
    ensures |Walked(blocks, last, n)| == n
    ensures forall b :: b in Walked(blocks, last, n) ==> b.target < TWO_32
  {
    if n > 0 {
      AncestorPrefix(blocks, last, n - 1, n);
      WalkedTargets(blocks, last, n - 1);
      AncestorStored(blocks, last, n - 1);
    }
  }

  lemma {:induction false} AncestorStored(blocks: BlockSet, b: Block, n: nat)
    requires Ancestor(blocks, b, n).Some?
    ensures n == 0 || Ancestor(blocks, b, n).value in blocks.Values
    ensures n == 0 ==> Ancestor(blocks, b, n).value == b
    decreases n
  {
    if n > 0 {
      var p := Get(blocks, b.prevBlock).value;
      assert b.prevBlock in blocks;
      AncestorStored(blocks, p, n - 1);
    }
  }

  /** The accumulation loop from the median "last" block to the median "first" one, which the walk
      is bound to meet because it is an ancestor.  `k` blocks are visited. */
  method AccumulateWork(last: Block, first: Block, blocks: BlockSet, ghost n: nat)
      returns (work: nat, size: int, ghost k: nat)
    requires last.target < TWO_32 && forall h :: h in blocks ==> blocks[h].target < TWO_32
    requires Ancestor(blocks, last, n) == Some(first)
    ensures k <= n && Ancestor(blocks, last, k) == Some(first)
    ensures forall i: nat :: i < k ==> Ancestor(blocks, last, i) != Some(first)
    ensures (work, size) == WorkOf(Walked(blocks, last, k))
    ensures work <= MAX_64 && |Walked(blocks, last, k)| == k
  {
    NoWork();
    hide Ancestor, Walked, Plus, UnitWork, WorkOf;
    work, size, k := 0, 0x1d, 0;
    var b := last;
    AncestorZero(blocks, last);
    while b != first
      invariant k <= n && Ancestor(blocks, last, k) == Some(b)
      invariant forall i: nat :: i < k ==> Ancestor(blocks, last, i) != Some(first)
      invariant work <= MAX_64 && |Walked(blocks, last, k)| == k
      invariant (work, size) == WorkOf(Walked(blocks, last, k))
      decreases n - k
    {
      WalkedStep(blocks, last, k, n);
      WorkAppend(Walked(blocks, last, k), b);
      work, size := AddWork(work, size, b.target);
      b := Get(blocks, b.prevBlock).value;
      k := k + 1;
    }
  }

  lemma WalkedStep(blocks: BlockSet, last: Block, k: nat, n: nat)
    requires last.target < TWO_32 && forall h :: h in blocks ==> blocks[h].target < TWO_32
    requires k < n && Ancestor(blocks, last, n).Some?
    ensures Ancestor(blocks, last, k).Some?
    ensures var b := Ancestor(blocks, last, k).value;
            && b.target < TWO_32 && b.prevBlock in blocks
            && Ancestor(blocks, last, k + 1) == Get(blocks, b.prevBlock)
            && Walked(blocks, last, k + 1) == Walked(blocks, last, k) + [b]
            && |Walked(blocks, last, k)| == k
  {
    AncestorPrefix(blocks, last, k + 1, n);
    AncestorPrefix(blocks, last, k, n);
    AncestorStep(blocks, last, k);
    WalkedTargets(blocks, last, k);
    AncestorStored(blocks, last, k);
  }

  lemma AncestorZero(blocks: BlockSet, b: Block)
    ensures Ancestor(blocks, b, 0) == Some(b) && Walked(blocks, b, 0) == []
  {
  }

  // ----- from work to target

  /** Byte shifts until `work` is at most `limit`. */
  function ShiftTo(work: int, size: int, limit: nat): (r: (int, int))
    requires work >= 0
    ensures 0 <= r.0 <= limit && r.0 <= work
  {
    if work > limit then ShiftTo(work / 256, size - 1, limit) else (work, size)
  }

  /** Work per ten minutes, for `work` (at scale `size`) done in `timespan` seconds, with its scale. */
  function Projected(work: nat, size: int, timespan: nat): (r: (int, int))
    requires timespan > 0
    ensures r.0 >= 0
  {
    var (a, sizeA) := ShiftTo(work, size, MAX_64 / 600);
    Division.DivideMonotone(0, a * 600, timespan);
    ShiftTo(a * 600 / timespan, sizeA, MAX_64 / 0x8000)
  }

  /** Projected work, inverted and normalised. */
  function Uncapped(work: nat, size: int, timespan: nat): int
    requires timespan > 0
  {
    var (b, sizeB) := Projected(work, size, timespan);
    Normalized(sizeB, if b > 0 then Quotient64(b) else MAX_64)
  }

  function TargetForWork(work: nat, size: int, timespan: nat): int
    requires timespan > 0
  {
    Cap(Uncapped(work, size, timespan))
  }

  /** The last part of `BRBCashVerifyDifficulty`; the product with 600 does not wrap. */
  method ComputeTarget(work0: nat, size0: int, timespan: nat) returns (target: int)
    requires work0 <= MAX_64 && timespan > 0
    ensures target == TargetForWork(work0, size0, timespan)
  {
    hide Quotient64, Normalized;
    var work: int, size := work0, size0;
    while work > MAX_64 / 600
      invariant work >= 0
      invariant ShiftTo(work, size, MAX_64 / 600) == ShiftTo(work0, size0, MAX_64 / 600)
    {
      work, size := work / 256, size - 1;
    }
    assert work * 600 <= MAX_64;  // does not wrap
    Division.DivideMonotone(0, work * 600, timespan);
    ghost var size1 := size;
    work := work * 600 / timespan;
    ghost var work1 := work;
    LimitMeans(work);
    while work != 0 && MAX_64 / work < 0x8000
      invariant 0 <= work
      invariant work != 0 && MAX_64 / work < 0x8000 <==> work > MAX_64 / 0x8000
      invariant ShiftTo(work, size, MAX_64 / 0x8000) == ShiftTo(work1, size1, MAX_64 / 0x8000)
      decreases work
    {
      work, size := work / 256, size - 1;
      LimitMeans(work);
    }
    target := if work != 0 then Quotient64(work) else MAX_64;
    target := Normalize(size, target);
    if target > MAX_PROOF_OF_WORK {
      target := MAX_PROOF_OF_WORK;
    }
  }

  lemma LimitMeans(work: int)
    requires work >= 0
    ensures work != 0 && MAX_64 / work < 0x8000 <==> work > MAX_64 / 0x8000
  {
    if work > 0 {
      var q := MAX_64 / work;
      Division.QuotientBounds(MAX_64, work);
      if q < 0x8000 {
        Division.Monotone(q + 1, 0x8000, work);
      } else {
        Division.Monotone(0x8000, q, work);
      }
    }
  }

  // ----- the whole check

  function ClampCash(timespan: int): (r: nat)
    ensures 72 * 10 * 60 <= r <= 288 * 10 * 60
  {
    if timespan > 288 * 10 * 60 then 288 * 10 * 60
    else if timespan < 72 * 10 * 60 then 72 * 10 * 60
    else timespan
  }

  /** A median block is one of the three. */
  lemma MedianIsAncestor(blocks: BlockSet, block: Block, a: nat, m: Block) returns (j: nat)
    requires Ancestor(blocks, block, a).Some?
    requires var b := Ancestor(blocks, block, a).value;
             && Ancestor(blocks, b, 2).Some? && Ancestor(blocks, b, 1).Some?
             && IsMedian(m, b, Ancestor(blocks, b, 1).value, Ancestor(blocks, b, 2).value)
    ensures j <= 2 && Ancestor(blocks, block, a + j) == Some(m)
  {
    var b := Ancestor(blocks, block, a).value;
    j := if m == b then 0 else if m == Ancestor(blocks, b, 1).value then 1 else 2;
    AncestorSum(blocks, block, a, j);
    AncestorZero(blocks, b);
  }

  /** `m` is the median of the `a`-th ancestor of `block` and its two predecessors. */
  ghost predicate IsMedianAt(blocks: BlockSet, block: Block, a: nat, m: Option<Block>) {
    && Ancestor(blocks, block, a).Some? && Ancestor(blocks, block, a + 1).Some? && Ancestor(blocks, block, a + 2).Some?
    && m.Some? && IsMedian(m.value, Ancestor(blocks, block, a).value, Ancestor(blocks, block, a + 1).value,
                           Ancestor(blocks, block, a + 2).value)
  }

  /** `BRBCashVerifyDifficulty`.  Below the fork height, or with too few stored ancestors, every
      block passes; otherwise work is summed over the blocks from the median of the three before
      this one down to the median of the three 144 further down, and the block's target must be the
      demanded one or one less.  The walk never falls off the chain. */
  method CashVerifyDifficulty(block: Block, blocks: BlockSet)
      returns (r: bool, ghost last: Option<Block>, ghost first: Option<Block>, ghost n: nat)
    requires block.target < TWO_32 && forall h :: h in blocks ==> blocks[h].target < TWO_32
    ensures block.height < FORK_HEIGHT || Ancestor(blocks, block, 147).None? ==> r
    ensures block.height >= FORK_HEIGHT && Ancestor(blocks, block, 147).Some? ==>
              && IsMedianAt(blocks, block, 1, last) && IsMedianAt(blocks, block, 145, first)
              && n <= 146 && Ancestor(blocks, last.value, n) == first
              && (forall i: nat :: i < n ==> Ancestor(blocks, last.value, i) != first)
              && var (work, size) := WorkOf(Walked(blocks, last.value, n));
                 r <==> (TargetForWork(work, size, ClampCash(last.value.timestamp - first.value.timestamp))
                         - block.target) % TWO_64 <= 1
  {
    hide Ancestor, Walked, WorkOf, TargetForWork, IsMedian;
    last, first, n := None, None, 0;
    if block.height >= FORK_HEIGHT {
      AncestorStep0(blocks, block);
      var l := Get(blocks, block.prevBlock);
      l := MedianBlock(l, blocks);
      var f := WalkBack(block, blocks, 145);
      ghost var f0 := f;
      f := MedianBlock(f, blocks);
      if f0.Some? {
        AncestorSum(blocks, block, 145, 2);
        AncestorSum(blocks, block, 145, 1);
      } else {
        AncestorMissing(blocks, block, 145, 147);
      }
      if f.None? {
        return true, last, first, n;
      }
      AncestorPrefix(blocks, block, 1, 147);
      AncestorPrefix(blocks, block, 3, 147);
      AncestorPrefix(blocks, block, 146, 147);
      AncestorPrefix(blocks, block, 2, 147);
      AncestorSum(blocks, block, 1, 2);
      AncestorSum(blocks, block, 1, 1);
      ghost var jl := MedianIsAncestor(blocks, block, 1, l.value);
      ghost var jf := MedianIsAncestor(blocks, block, 145, f.value);
      AncestorSum(blocks, block, 1 + jl, 144 + jf - jl);
      last, first := l, f;
      var timespan := l.value.timestamp - f.value.timestamp;
      if timespan > 288 * 10 * 60 {
        timespan := 288 * 10 * 60;
      }
      if timespan < 72 * 10 * 60 {
        timespan := 72 * 10 * 60;
      }
      LastTarget(blocks, block, 1 + jl);
      var w, s, k := AccumulateWork(l.value, f.value, blocks, 144 + jf - jl);
      n := k;
      var target := ComputeTarget(w, s, timespan);
      if (target - block.target) % TWO_64 > 1 {
        return false, last, first, n;
      }
    }
    return true, last, first, n;
  }

  lemma LastTarget(blocks: BlockSet, block: Block, i: nat)
    requires i > 0 && Ancestor(blocks, block, i).Some?
    requires forall h :: h in blocks ==> blocks[h].target < TWO_32
    ensures Ancestor(blocks, block, i).value.target < TWO_32
  {
    AncestorStored(blocks, block, i);
  }

  lemma AncestorStep0(blocks: BlockSet, b: Block)
    ensures Ancestor(blocks, b, 1) == Get(blocks, b.prevBlock)
  {
    AncestorZero(blocks, b);
    AncestorStep(blocks, b, 0);
  }
}

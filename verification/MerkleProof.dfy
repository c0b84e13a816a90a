/** BIP 37 partial Merkle trees: the two recursive decoders of bitcoin/BRMerkleBlock.c over
    their shared cursors, and recursive functions that say what they compute. */
module MerkleProof {
  import opened Wrappers
  import opened MerkleTree

  const SIZE_MAX: nat := 0xffff_ffff_ffff_ffff

  /** The fields of a merkleblock message that the decoders read. */
  datatype Block = Block(totalTx: nat, hashes: seq<Hash>, flags: seq<bv8>)

  /** The cursors `*hashIdx` and `*flagIdx`. */
  datatype Cursor = Cursor(hashIdx: nat, flagIdx: nat)

  const START: Cursor := Cursor(0, 0)

  /** A block's two streams as the decoders consume them, flags bit by bit. */
  datatype Stream = Stream(bits: seq<bool>, hashes: seq<Hash>)

  function Mask(k: nat): bv8
    requires k < 8
  {
    if k == 0 then 0x01 else if k == 1 then 0x02 else if k == 2 then 0x04 else if k == 3 then 0x08
    else if k == 4 then 0x10 else if k == 5 then 0x20 else if k == 6 then 0x40 else 0x80
  }

  /** Flag bits are read from the least significant end of each byte. */
  function FlagBit(flags: seq<bv8>, i: nat): bool
    requires i / 8 < |flags|
  {
    flags[i / 8] & Mask(i % 8) != 0
  }

  function View(b: Block): Stream {
    Stream(seq(8 * |b.flags|, i requires 0 <= i < 8 * |b.flags| => FlagBit(b.flags, i)), b.hashes)
  }

  predicate MayRead(s: Stream, c: Cursor) {
    c.flagIdx < |s.bits| && c.hashIdx < |s.hashes|
  }

  // ----- partial trees

  /** A partial tree as BIP 37 writes it depth first: `Stub` carries a hash whose subtree was
      not descended into, `Leaf` a matched transaction, `Missing` nothing at all. */
  datatype Branch = Missing | Stub(hash: Hash) | Leaf(hash: Hash) | Fork(left: Branch, right: Branch)

  function Bits(t: Branch): seq<bool> {
    match t
    case Missing => []
    case Stub(_) => [false]
    case Leaf(_) => [true]
    case Fork(l, r) => [true] + Bits(l) + Bits(r)
  }

  function Hashes(t: Branch): seq<Hash> {
    match t
    case Missing => []
    case Stub(x) => [x]
    case Leaf(x) => [x]
    case Fork(l, r) => Hashes(l) + Hashes(r)
  }

  function Matches(t: Branch): seq<Hash> {
    match t
    case Missing => []
    case Stub(_) => []
    case Leaf(x) => [x]
    case Fork(l, r) => Matches(l) + Matches(r)
  }

  /** The hash a partial tree commits to; a right side that is missing (or is the zero hash)
      is replaced by the left one. */
  function Value(h: Combine, t: Branch): Hash {
    match t
    case Missing => ZERO
    case Stub(x) => x
    case Leaf(x) => x
    case Fork(l, r) =>
      var (a, b) := (Value(h, l), Value(h, r));
      h(a, if b == ZERO then a else b)
  }

  /** No fork has equal children (CVE-2012-2459) or a left child of value zero. */
  predicate Sound(h: Combine, t: Branch) {
    match t
    case Fork(l, r) =>
      Sound(h, l) && Sound(h, r) && Value(h, l) != ZERO && Value(h, l) != Value(h, r)
    case _ => true
  }

  /** Matched leaves lie exactly at depth `level`, forks above it. */
  predicate LeavesAt(t: Branch, level: nat) {
    match t
    case Missing => true
    case Stub(_) => true
    case Leaf(_) => level == 0
    case Fork(l, r) => level > 0 && LeavesAt(l, level - 1) && LeavesAt(r, level - 1)
  }

  datatype Parsed = Parsed(tree: Branch, at: Cursor)

  /** The partial tree a traversal reads, `level` levels above the transactions. */
  function Parse(s: Stream, c: Cursor, level: nat): (r: Parsed)
    ensures r.at.flagIdx >= c.flagIdx
    ensures r.at.hashIdx >= c.hashIdx
    decreases level
  {
    if !MayRead(s, c) then Parsed(Missing, c)
    else if !s.bits[c.flagIdx] then Parsed(Stub(s.hashes[c.hashIdx]), Cursor(c.hashIdx + 1, c.flagIdx + 1))
    else if level == 0 then Parsed(Leaf(s.hashes[c.hashIdx]), Cursor(c.hashIdx + 1, c.flagIdx + 1))
    else
      var left := Parse(s, Cursor(c.hashIdx, c.flagIdx + 1), level - 1);
      var right := Parse(s, left.at, level - 1);
      Parsed(Fork(left.tree, right.tree), right.at)
  }

  datatype Rooted = Rooted(md: Hash, at: Cursor)

  /** What `_BRMerkleBlockRootR` returns, and the cursors it leaves behind. */
  function RootFrom(h: Combine, s: Stream, c: Cursor, level: nat): Rooted
    decreases level
  {
    if !MayRead(s, c) then Rooted(ZERO, c)
    else if !s.bits[c.flagIdx] || level == 0 then
      Rooted(s.hashes[c.hashIdx], Cursor(c.hashIdx + 1, c.flagIdx + 1))
    else
      var left := RootFrom(h, s, Cursor(c.hashIdx, c.flagIdx + 1), level - 1);
      var right := RootFrom(h, s, left.at, level - 1);
      if left.md == ZERO || left.md == right.md then Rooted(ZERO, Cursor(SIZE_MAX, right.at.flagIdx))
      else Rooted(h(left.md, if right.md == ZERO then left.md else right.md), right.at)
  }

  // ----- _ceil_log2

  /** Bitwise `&` on non-negative integers. */
  function BitAnd(a: nat, b: nat): nat {
    if a == 0 then 0 else (if a % 2 == 1 && b % 2 == 1 then 1 else 0) + 2 * BitAnd(a / 2, b / 2)
  }

  function Pow2(n: nat): nat { if n == 0 then 1 else 2 * Pow2(n - 1) }

  function FloorLog2(n: nat): nat { if n <= 1 then 0 else 1 + FloorLog2(n / 2) }

  lemma {:induction false} BitAndSelf(a: nat)
    ensures BitAnd(a, a) == a
  {
    if a > 0 {
      BitAndSelf(a / 2);
    }
  }

  lemma {:induction false} LevelsOfSuccessor(y: nat)
    requires y >= 1
    ensures Levels(y + 1) == FloorLog2(y) + 1
  {
    if y >= 2 {
      assert (y + 2) / 2 == y / 2 + 1;
      LevelsOfSuccessor(y / 2);
    }
  }

  /** `x & (x - 1)` vanishes exactly when rounding up adds nothing. */
  lemma {:induction false} LevelsByBits(x: nat)
    requires x >= 1
    ensures Levels(x) == FloorLog2(x) + (if BitAnd(x, x - 1) == 0 then 0 else 1)
  {
    if x == 1 {
    } else if x % 2 == 1 {
      assert (x + 1) / 2 == x / 2 + 1;
      LevelsOfSuccessor(x / 2);
      BitAndStep(x);
    } else {
      assert (x + 1) / 2 == x / 2;
      LevelsByBits(x / 2);
      BitAndStep(x);
      hide BitAnd;
    }
  }

  lemma BitAndStep(x: nat)
    requires x >= 2
    ensures x % 2 == 1 ==> BitAnd(x, x - 1) == 2 * (x / 2)
    ensures x % 2 == 0 ==> BitAnd(x, x - 1) == 2 * BitAnd(x / 2, x / 2 - 1)
  {
    hide BitAnd;
    BitAndUnfold(x, x - 1);
    if x % 2 == 1 {
      assert (x - 1) / 2 == x / 2;
      BitAndSelf(x / 2);
    } else {
      assert (x - 1) / 2 == x / 2 - 1;
    }
  }

  lemma BitAndUnfold(a: nat, b: nat)
    requires a > 0
    ensures BitAnd(a, b) == (if a % 2 == 1 && b % 2 == 1 then 1 else 0) + 2 * BitAnd(a / 2, b / 2)
  {
  }

  /** `Levels` is the base-2 logarithm, rounded up. */
  lemma {:induction false} LevelsIsCeilLog2(n: nat)
    requires n >= 1
    ensures n <= Pow2(Levels(n)) < 2 * n
  {
    if n > 1 {
      LevelsIsCeilLog2((n + 1) / 2);
    }
  }

  /** `_ceil_log2`; its argument is a C int, so it must not be negative. */
  method CeilLog2(x: nat) returns (r: nat)
    ensures r == Levels(x)
    ensures x >= 1 ==> x <= Pow2(r) < 2 * x
  {
    r := if x > 0 && BitAnd(x, x - 1) != 0 then 1 else 0;
    ghost var extra := r;
    var y: nat := x / 2;
    ghost var z: nat := x;
    while y != 0
      invariant y == z / 2
      invariant r - extra + FloorLog2(z) == FloorLog2(x)
      decreases y
    {
      r := r + 1;
      z := y;
      y := y / 2;
    }
    if x >= 1 {
      LevelsByBits(x);
      LevelsIsCeilLog2(x);
    }
  }

  /** A count as the C int it is passed as. */
  function AsInt(count: nat): int
    requires count < 0x1_0000_0000
  {
    if count < 0x8000_0000 then count else count - 0x1_0000_0000
  }

  /** `x >>= 1` done `n` times, which keeps the sign. */
  function Shifted(x: int, n: nat): int
    decreases n
  {
    if n == 0 then x else Shifted(x / 2, n - 1)
  }

  lemma {:induction false} ShiftedSign(x: int, n: nat)
    ensures x < 0 ==> Shifted(x, n) < 0
    ensures 0 <= x < n ==> Shifted(x, n) == 0
    decreases n
  {
    if n > 0 {
      ShiftedSign(x / 2, n - 1);
      if x == 0 && n == 1 {
        assert Shifted(0, 0) == 0;
      }
    }
  }

  /** The loop `while ((x >>= 1) != 0)` comes to an end exactly for counts below 2^31. */
  lemma CeilLog2Ends(count: nat)
    requires count < 0x1_0000_0000
    ensures (exists n: nat :: n > 0 && Shifted(AsInt(count), n) == 0) <==> count < 0x8000_0000
  {
    if count < 0x8000_0000 {
      ShiftedSign(AsInt(count), count + 1);
    } else {
      forall n: nat ensures Shifted(AsInt(count), n) != 0 {
        ShiftedSign(AsInt(count), n);
      }
    }
  }

  // ----- the traversals as the source runs them

  /** What fits of `s` into a buffer of the given capacity. */
  function Clip<T>(s: seq<T>, capacity: nat): seq<T> {
    if |s| <= capacity then s else s[..capacity]
  }

  lemma ClipTwice<T>(pre: seq<T>, a: seq<T>, b: seq<T>, capacity: nat)
    ensures Clip(Clip(pre + a, capacity) + b, capacity) == Clip(pre + (a + b), capacity)
  {
    assert (pre + a) + b == pre + (a + b);
    if |pre + a| > capacity {
      assert Clip(pre + a, capacity) + b == (pre + a)[..capacity] + b;
      assert (pre + (a + b))[..capacity] == (pre + a)[..capacity];
    }
  }

  /** One run of a traversal over a block: the cursors the source passes by pointer. */
  class Walk {
    const block: Block
    ghost const stream: Stream  // the view of `block`
    ghost const levels: nat     // the height of its tree
    const combine: Combine
    var hashIdx: nat
    var flagIdx: nat
    var idx: nat
    ghost var out: seq<Hash>  // the matched hashes delivered so far

    constructor (block: Block, combine: Combine)
      ensures this.block == block && this.combine == combine
      ensures Wired() && stream == View(block) && levels == Levels(block.totalTx)
      ensures At() == START && idx == 0 && out == []
    {
      this.block, this.combine := block, combine;
      stream, levels := View(block), Levels(block.totalTx);
      hashIdx, flagIdx, idx, out := 0, 0, 0, [];
    }

    ghost predicate Wired() {
      && levels == Levels(block.totalTx)
      && stream.hashes == block.hashes
      && |stream.bits| == 8 * |block.flags|
      && forall i :: 0 <= i < |stream.bits| ==> stream.bits[i] == FlagBit(block.flags, i)
    }

    function At(): Cursor
      reads this
    {
      Cursor(hashIdx, flagIdx)
    }

    /** `_BRMerkleBlockRootR`. */
    method RootR(depth: nat) returns (md: Hash)
      requires Wired() && depth <= levels
      modifies this`hashIdx, this`flagIdx
      ensures Rooted(md, At()) == RootFrom(combine, stream, old(At()), levels - depth)
      decreases levels - depth
    {
      hide RootFrom;
      RootStep(combine, stream, At(), levels - depth);
      md := ZERO;
      if flagIdx / 8 < |block.flags| && hashIdx < |block.hashes| {
        var flag := FlagBit(block.flags, flagIdx);
        flagIdx := flagIdx + 1;
        var height := CeilLog2(block.totalTx);
        if flag && depth != height {
          var left := RootR(depth + 1);
          var right := RootR(depth + 1);
          if left != ZERO && left != right {
            if right == ZERO {
              right := left;
            }
            md := combine(left, right);
          } else {
            hashIdx := SIZE_MAX;
          }
        } else {
          md := block.hashes[hashIdx];
          hashIdx := hashIdx + 1;
        }
      }
    }

    /** The buffer holds what was delivered so far. */
    ghost predicate Delivered(txHashes: array?<Hash>, capacity: nat)
      reads this, txHashes
    {
      && idx == |out| <= capacity
      && (txHashes != null ==> capacity <= txHashes.Length && txHashes[..idx] == out)
    }

    /** The leaf case: `flag` is set iff the leaf's transaction is matched. */
    method Deliver(txHashes: array?<Hash>, capacity: nat, flag: bool)
      requires hashIdx < |block.hashes| && Delivered(txHashes, capacity)
      modifies this`idx, this`out, this`hashIdx, txHashes
      ensures hashIdx == old(hashIdx) + 1 && Delivered(txHashes, capacity)
      ensures out == Clip(old(out) + (if flag then [block.hashes[old(hashIdx)]] else []), capacity)
    {
      if flag && idx < capacity {
        if txHashes != null {
          txHashes[idx] := block.hashes[hashIdx];
        }
        idx := idx + 1;
        out := out + [block.hashes[hashIdx]];
      }
      hashIdx := hashIdx + 1;
    }

    /** `_BRMerkleBlockTxHashesR`: appends the matched hashes to `txHashes`, which may be
        NULL, as long as fewer than `capacity` were found. */
    method TxHashesR(txHashes: array?<Hash>, capacity: nat, depth: nat)
      requires Wired() && depth <= levels && Delivered(txHashes, capacity)
      modifies this, txHashes
      ensures Delivered(txHashes, capacity)
      ensures At() == Parse(stream, old(At()), levels - depth).at
      ensures out == Clip(old(out) + Matches(Parse(stream, old(At()), levels - depth).tree), capacity)
      decreases levels - depth
    {
      hide Parse, Matches;
      ParseStep(stream, At(), levels - depth);
      if flagIdx / 8 < |block.flags| && hashIdx < |block.hashes| {
        var flag := FlagBit(block.flags, flagIdx);
        flagIdx := flagIdx + 1;
        var height := CeilLog2(block.totalTx);
        if !flag || depth == height {
          Deliver(txHashes, capacity, flag);
        } else {
          Descend(txHashes, capacity, depth);
        }
      } else {
        assert out + [] == out;
      }
    }

    /** The two recursive calls of `_BRMerkleBlockTxHashesR`: left branch, then right branch. */
    method Descend(txHashes: array?<Hash>, capacity: nat, depth: nat)
      requires Wired() && depth < levels && Delivered(txHashes, capacity)
      modifies this, txHashes
      ensures Delivered(txHashes, capacity)
      ensures var left := Parse(stream, old(At()), levels - depth - 1);
              var right := Parse(stream, left.at, levels - depth - 1);
              At() == right.at && out == Clip(old(out) + (Matches(left.tree) + Matches(right.tree)), capacity)
      decreases levels - depth, 0
    {
      hide Parse, Matches;
      ghost var pre, level := out, levels - depth - 1;
      ghost var left := Parse(stream, At(), level);
      ghost var right := Parse(stream, left.at, level);
      TxHashesR(txHashes, capacity, depth + 1);
      assert At() == left.at && out == Clip(pre + Matches(left.tree), capacity);
      TxHashesR(txHashes, capacity, depth + 1);
      assert At() == right.at && out == Clip(Clip(pre + Matches(left.tree), capacity) + Matches(right.tree), capacity);
      ClipTwice(pre, Matches(left.tree), Matches(right.tree), capacity);
    }
  }

  /** One unfolding of `Parse`, with the matched hashes it yields. */
  lemma ParseStep(s: Stream, c: Cursor, level: nat)
    ensures var t := Parse(s, c, level);
            var next := Cursor(c.hashIdx + 1, c.flagIdx + 1);
            if !MayRead(s, c) then t.at == c && Matches(t.tree) == []
            else if !s.bits[c.flagIdx] then t.at == next && Matches(t.tree) == []
            else if level == 0 then t.at == next && Matches(t.tree) == [s.hashes[c.hashIdx]]
            else
              var left := Parse(s, Cursor(c.hashIdx, c.flagIdx + 1), level - 1);
              var right := Parse(s, left.at, level - 1);
              t.at == right.at && Matches(t.tree) == Matches(left.tree) + Matches(right.tree)
  {
  }

  /** One unfolding of `RootFrom`. */
  lemma RootStep(h: Combine, s: Stream, c: Cursor, level: nat)
    ensures var t := RootFrom(h, s, c, level);
            if !MayRead(s, c) then t == Rooted(ZERO, c)
            else if !s.bits[c.flagIdx] || level == 0 then
              t == Rooted(s.hashes[c.hashIdx], Cursor(c.hashIdx + 1, c.flagIdx + 1))
            else
              var left := RootFrom(h, s, Cursor(c.hashIdx, c.flagIdx + 1), level - 1);
              var right := RootFrom(h, s, left.at, level - 1);
              if left.md == ZERO || left.md == right.md then
                t == Rooted(ZERO, Cursor(SIZE_MAX, right.at.flagIdx))
              else t == Rooted(h(left.md, if right.md == ZERO then left.md else right.md), right.at)
  {
  }

  /** The tree both decoders see in a whole block. */
  function TreeOf(b: Block): Branch {
    Parse(View(b), START, Levels(b.totalTx)).tree
  }

  /** Root traversal of a whole block. */
  function RootOf(h: Combine, b: Block): Rooted {
    RootFrom(h, View(b), START, Levels(b.totalTx))
  }

  /** The part of `BRMerkleBlockIsValid` that checks the partial tree against the root in the header. */
  method RootIsValid(block: Block, combine: Combine, merkleRoot: Hash) returns (r: bool)
    ensures r <==> Accepts(combine, block, merkleRoot)
  {
    var walk := new Walk(block, combine);
    var root := walk.RootR(0);
    assert Rooted(root, walk.At()) == RootOf(combine, block);
    r := true;
    if block.totalTx > 0 && root != merkleRoot {
      r := false;
    }
  }

  /** The root is right, or not looked at.  Neither the cursors nor the count are checked. */
  predicate Accepts(h: Combine, b: Block, merkleRoot: Hash) {
    b.totalTx > 0 ==> RootOf(h, b).md == merkleRoot
  }

  /** `BRMerkleBlockTxHashes`: with a NULL array it counts the matched hashes, otherwise it
      writes as many of them as fit. */
  method TxHashes(block: Block, combine: Combine, txHashes: array?<Hash>) returns (count: nat)
    requires |block.hashes| < SIZE_MAX
    modifies txHashes
    ensures txHashes == null ==> count == |Matches(TreeOf(block))|
    ensures txHashes != null ==>
              && count <= txHashes.Length
              && txHashes[..count] == Clip(Matches(TreeOf(block)), txHashes.Length)
  {
    MatchesWithinHashes(View(block), START, Levels(block.totalTx));
    var walk := new Walk(block, combine);
    walk.TxHashesR(txHashes, if txHashes == null then SIZE_MAX else txHashes.Length, 0);
    count := walk.idx;
  }

  lemma {:induction false} MatchesWithinHashes(s: Stream, c: Cursor, level: nat)
    requires c.hashIdx <= |s.hashes|
    ensures c.hashIdx + |Matches(Parse(s, c, level).tree)| <= Parse(s, c, level).at.hashIdx <= |s.hashes|
    decreases level
  {
    if MayRead(s, c) && s.bits[c.flagIdx] && level > 0 {
      var c1 := Cursor(c.hashIdx, c.flagIdx + 1);
      MatchesWithinHashes(s, c1, level - 1);
      MatchesWithinHashes(s, Parse(s, c1, level - 1).at, level - 1);
    }
  }
}

/** Difficulty and proof-of-work checks of bitcoin/BRMerkleBlock.c and bitcoin/BRChainParams.c. */
module Difficulty {
  import opened Wrappers
  import opened Bytes
  import opened Blocks
  import opened Retarget
  import Division

  // ----- the retarget as the source computes it

  /** The shift-and-count loop that normalises a mantissa for the compact format. */
  method Normalize(size0: int, target0: nat) returns (target: int)
    ensures target == Normalized(size0, target0)
  {
    var size := size0;
    target := target0;
    while size < 1 || target > 0x7f_ffff
      invariant target >= 0
      invariant Normalized(size, target) == Normalized(size0, target0)
      decreases if size < 1 then 1 - size else 0, target
    {
      target, size := target / 256, size + 1;
    }
    target := size * 0x100_0000 + target;  // the bits do not overlap
  }

  /** The transition branch of `BRMerkleBlockVerifyDifficulty`. */
  method NextTarget(previous: nat, timestamp: nat, transitionTime: nat) returns (target: int)
    ensures target == Demanded(previous, timestamp - transitionTime)
  {
    QuotientRange(previous, timestamp - transitionTime);
    var size := previous / 0x100_0000;
    target := previous % 0x80_0000;
    var timespan := timestamp - transitionTime;
    if timespan < TARGET_TIMESPAN / 4 {
      timespan := TARGET_TIMESPAN / 4;
    }
    if timespan > TARGET_TIMESPAN * 4 {
      timespan := TARGET_TIMESPAN * 4;
    }
    assert target * timespan < TWO_64;  // does not wrap
    target := target * timespan;
    target := target / (TARGET_TIMESPAN / 256);
    size := size - 1;
    target := Normalize(size, target);
    if target > MAX_PROOF_OF_WORK {
      target := MAX_PROOF_OF_WORK;
    }
  }

  /** What `BRMerkleBlockVerifyDifficulty` accepts. */
  predicate Accepts(block: Block, previous: Block, transitionTime: nat) {
    && block.prevBlock == previous.blockHash
    && block.height == (previous.height + 1) % TWO_32
    && if block.height % DIFFICULTY_INTERVAL == 0
       then transitionTime != 0 && block.target == Demanded(previous.target, previous.timestamp - transitionTime)
       else block.target == previous.target
  }

  /** `BRMerkleBlockVerifyDifficulty`.  The size byte must leave room for `size << 24` in an int. */
  method VerifyDifficulty(block: Block, previous: Option<Block>, transitionTime: nat) returns (r: bool)
    requires previous.Some? ==> previous.value.target < 0x7f00_0000
    ensures r <==> previous.Some? && Accepts(block, previous.value, transitionTime)
  {
    r := true;
    if previous.None? || block.prevBlock != previous.value.blockHash
       || block.height != (previous.value.height + 1) % TWO_32 {
      r := false;
    }
    if r && block.height % DIFFICULTY_INTERVAL == 0 && transitionTime == 0 {
      r := false;
    }
    if r && block.height % DIFFICULTY_INTERVAL == 0 {
      var target := NextTarget(previous.value.target, previous.value.timestamp, transitionTime);
      if block.target != target {
        r := false;
      }
    } else if r && block.target != previous.value.target {
      r := false;
    }
  }

  // ----- the walk to the previous transition

  /** Follows `prevBlock` up to `n` times. */
  method WalkBack(block: Block, blocks: BlockSet, n: nat) returns (b: Option<Block>)
    ensures b == Ancestor(blocks, block, n)
  {
    b := Some(block);
    var i := 0;
    while b.Some? && i < n
      invariant i <= n
      invariant b == Ancestor(blocks, block, i)
      decreases n - i
    {
      AncestorStep(blocks, block, i);
      b := Get(blocks, b.value.prevBlock);
      i := i + 1;
    }
    if b.None? {
      AncestorMissing(blocks, block, i, n);
    }
  }

  /** The time the retarget counts from: that of the 2016th ancestor, if it is stored. */
  function TransitionTime(block: Block, blocks: BlockSet): nat {
    var b := Ancestor(blocks, block, DIFFICULTY_INTERVAL);
    if block.height % DIFFICULTY_INTERVAL == 0 && b.Some? then b.value.timestamp else 0
  }

  /** `BRMainNetVerifyDifficulty`. */
  method MainNetVerifyDifficulty(block: Block, blocks: BlockSet) returns (r: bool)
    requires block.prevBlock in blocks ==> blocks[block.prevBlock].target < 0x7f00_0000
    ensures r <==> (&& block.prevBlock in blocks
                    && Accepts(block, blocks[block.prevBlock], TransitionTime(block, blocks)))
  {
    var b: Option<Block> := None;
    if block.height % DIFFICULTY_INTERVAL == 0 {
      b := WalkBack(block, blocks, DIFFICULTY_INTERVAL);
    }
    var previous := Get(blocks, block.prevBlock);
    r := VerifyDifficulty(block, previous, if b.Some? then b.value.timestamp else 0);
  }

  /** On a set with consistent heights an accepted transition block is exactly 2016 above the
      block whose time it counts from, its predecessor 2015 above, and its target is the ideal
      target of those 2015 intervals in canonical compact form, capped. */
  lemma TransitionIsIdeal(block: Block, blocks: BlockSet)
    requires AllLinked(blocks) && Linked(blocks, block) && block.prevBlock in blocks
    requires block.height % DIFFICULTY_INTERVAL == 0
    requires Accepts(block, blocks[block.prevBlock], TransitionTime(block, blocks))
    requires var prev := blocks[block.prevBlock];
             Canonical(prev.target) && 4 <= SizeOf(prev.target) && prev.target <= MAX_PROOF_OF_WORK
    ensures Ancestor(blocks, block, DIFFICULTY_INTERVAL).Some?
    ensures var prev, first := blocks[block.prevBlock], Ancestor(blocks, block, DIFFICULTY_INTERVAL).value;
            var ideal := Ideal(prev.target, prev.timestamp - first.timestamp);
            && first.height == block.height - DIFFICULTY_INTERVAL
            && Canonical(block.target) && block.target <= MAX_PROOF_OF_WORK
            && if ideal <= Expand(MAX_PROOF_OF_WORK) then IsCompactOf(block.target, ideal)
               else block.target == MAX_PROOF_OF_WORK
  {
    hide Demanded, Ideal, Ancestor, IsCompactOf, Canonical, Expand;
    var prev, first := blocks[block.prevBlock], Ancestor(blocks, block, DIFFICULTY_INTERVAL).value;
    AncestorHeight(blocks, block, DIFFICULTY_INTERVAL);
    DemandedIsIdeal(prev.target, prev.timestamp - first.timestamp);
  }

  // ----- proof of work

  /** The 32 little-endian bytes of a target, as `BRMerkleBlockIsValid` writes them. */
  method TargetBytes(target: nat) returns (t: seq<Byte>)
    requires target < 0x2000_0000  // a larger size would be written past the 32 bytes
    ensures |t| == 32 && FromLE(t) == Expand(target)
  {
    hide FromLE, Zeros, ToLE, Pow256;
    var size, mantissa := target / 0x100_0000, target % 0x80_0000;
    if size > 3 {
      t := Zeros(size - 3) + ToLE(mantissa, 4) + Zeros(31 - size);
      TargetValue(size - 3, mantissa, 31 - size);
    } else {
      var shifted := mantissa / Pow256(3 - size);
      ShiftedMantissa(mantissa, 3 - size);
      t := ToLE(shifted, 4) + Zeros(28);
      TargetValue(0, shifted, 28);
      assert t == Zeros(0) + ToLE(shifted, 4) + Zeros(28);
    }
  }

  lemma ShiftedMantissa(mantissa: nat, k: nat)
    requires mantissa < 0x80_0000
    ensures 0 <= mantissa / Pow256(k) < 0x80_0000
    ensures Pow256(0) == 1 && (k == 0 ==> mantissa / Pow256(k) == mantissa)
  {
    Division.QuotientBounds(mantissa, Pow256(k));
    Division.Monotone(1, Pow256(k), mantissa);
    Division.DivideMonotone(0, mantissa, Pow256(k));
    if mantissa / Pow256(k) > mantissa {
      Division.Monotone(mantissa + 1, mantissa / Pow256(k), Pow256(k));
      Division.Distribute(mantissa, 1, Pow256(k));
    }
  }

  lemma {:induction false} TargetValue(low: nat, mantissa: nat, high: nat)
    requires mantissa < 0x80_0000
    ensures FromLE(Zeros(low) + ToLE(mantissa, 4) + Zeros(high)) == mantissa * Pow256(low)
  {
    var s := Zeros(low) + ToLE(mantissa, 4) + Zeros(high);
    if low == 0 {
      FromLEZeros(high);
      FourBytes(mantissa, Zeros(high));
      assert s == ToLE(mantissa, 4) + Zeros(high);
    } else {
      TargetValue(low - 1, mantissa, high);
      assert s[1..] == Zeros(low - 1) + ToLE(mantissa, 4) + Zeros(high);
      Division.Associate(mantissa, Pow256(low - 1), 256);
    }
  }

  lemma FourBytes(x: nat, rest: seq<Byte>)
    requires x < 0x80_0000 && FromLE(rest) == 0
    ensures FromLE(ToLE(x, 4) + rest) == x
  {
    assert Pow256(4) > x by { assert Pow256(2) == 65536; }
    FromToLE(x, 4);
    FromLEConcat(ToLE(x, 4), rest);
  }

  /** The byte loop of `BRMerkleBlockIsValid`, from the most significant byte down. */
  method HashBelowTarget(hash: seq<Byte>, t: seq<Byte>) returns (r: bool)
    requires |hash| == |t|
    ensures r <==> FromLE(hash) <= FromLE(t)
  {
    hide FromLE, Pow256;
    r := true;
    var i := |hash| - 1;
    while r && i >= 0
      invariant -1 <= i < |hash|
      invariant r ==> hash[i + 1..] == t[i + 1..]
      invariant !r ==> FromLE(hash) > FromLE(t)
      decreases i, r
    {
      HighByteDecides(hash, t, i);
      if hash[i] < t[i] {
        return;
      }
      if hash[i] > t[i] {
        r := false;
      }
      i := i - 1;
    }
    if r {
      assert hash[0..] == hash && t[0..] == t;
    }
  }

  /** With equal bytes above, the first byte that differs decides. */
  lemma {:induction false} HighByteDecides(a: seq<Byte>, b: seq<Byte>, i: nat)
    requires |a| == |b| && i < |a| && a[i + 1..] == b[i + 1..]
    ensures a[i] < b[i] ==> FromLE(a) < FromLE(b)
    ensures a[i] > b[i] ==> FromLE(a) > FromLE(b)
    ensures a[i] == b[i] ==> a[i..] == b[i..]
  {
    if i > 0 {
      HighByteDecides(a[1..], b[1..], i - 1);
      assert a[i..] == a[1..][i - 1..] && b[i..] == b[1..][i - 1..];
    } else if a[0] == b[0] {
      assert a[0..] == [a[0]] + a[1..] && b[0..] == [b[0]] + b[1..];
    }
  }

  /** The proof-of-work part of `BRMerkleBlockIsValid`: the target must be positive, unsigned, no
      easier than the minimum difficulty, and not below the block hash read as a number. */
  method ProofOfWorkIsValid(hash: seq<Byte>, target: nat) returns (r: bool)
    requires |hash| == 32 && target < 0x2000_0000
    ensures r <==> (&& MantissaOf(target) != 0 && !SignOf(target) && target <= MAX_PROOF_OF_WORK
                    && FromLE(hash) <= Expand(target))
  {
    r := true;
    if target % 0x80_0000 == 0 || target / 0x80_0000 % 2 == 1 || target > MAX_PROOF_OF_WORK {
      r := false;
    }
    var t := TargetBytes(target);
    if r {
      r := HashBelowTarget(hash, t);
    }
  }
}

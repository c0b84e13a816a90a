/** Which targets the Bitcoin difficulty rule of bitcoin/BRChainParams.c lets through, block by block and along a
    whole chain. */
module TargetSchedule {
  import opened Wrappers
  import opened Bytes
  import opened Blocks
  import opened Retarget
  import opened Difficulty

  /** The ideal target is the previous one times the time taken over two weeks, where the time counts as half a week at
      least and eight weeks at most. */
  lemma IdealInNumbers(previous: nat, timespan: int)
    ensures Ideal(previous, timespan)
         == Expand(previous) * (if timespan <= 302400 then 302400 else if timespan >= 4838400 then 4838400 else timespan) / 1209600
  {
  }

  /** The target of minimum difficulty, the largest there is: 0xffff followed by 26 zero bytes. */
  lemma MaximumInNumbers()
    ensures Expand(MAX_PROOF_OF_WORK) == 0xffff * 0x1_0000_0000_0000_0000_0000_0000_0000_0000_0000_0000_0000_0000_0000
  {
    assert SizeOf(MAX_PROOF_OF_WORK) == 29 && MantissaOf(MAX_PROOF_OF_WORK) == 0xffff;
    Pow256Sum(13, 13);
    assert Pow256(13) == 0x1_00_0000_0000_0000_0000_0000_0000 by {
      Pow256Sum(6, 7);
      assert Pow256(6) == 0x1_0000_0000_0000 && Pow256(7) == 0x1_00_0000_0000_0000;
    }
  }

  /** The target of a block 2016 after `first` and right after `prev`, as consensus defines it: the previous one, scaled by
      the time taken, in canonical compact form, and no easier than the minimum difficulty. */
  predicate IsRetargeted(target: nat, prev: Block, first: Block) {
    var ideal := Ideal(prev.target, prev.timestamp - first.timestamp);
    if ideal <= Expand(MAX_PROOF_OF_WORK) then IsCompactOf(target, ideal) else target == MAX_PROOF_OF_WORK
  }

  /** The target has the form that retargets keep. */
  predicate IsRegular(target: nat) {
    Canonical(target) && 4 <= SizeOf(target) && target <= MAX_PROOF_OF_WORK
  }

  /** A block is accepted exactly if it keeps its predecessor's target between transitions, and at a transition has
      the consensus target, counted from its 2016th ancestor, which must be stored and have a time. */
  lemma AcceptsExactly(block: Block, blocks: BlockSet)
    requires Keyed(blocks) && block.prevBlock in blocks && block.height == blocks[block.prevBlock].height + 1 < TWO_32
    requires block.height % DIFFICULTY_INTERVAL == 0 ==> IsRegular(blocks[block.prevBlock].target)
    ensures Accepts(block, blocks[block.prevBlock], TransitionTime(block, blocks))
       <==> var prev, first := blocks[block.prevBlock], Ancestor(blocks, block, 2016);
            if block.height % 2016 != 0 then block.target == prev.target
            else first.Some? && first.value.timestamp != 0 && IsRetargeted(block.target, prev, first.value)
  {
    hide Demanded, Ideal, Ancestor, IsCompactOf, Canonical, Expand;
    var prev, first := blocks[block.prevBlock], Ancestor(blocks, block, 2016);
    if block.height % 2016 == 0 && first.Some? {
      DemandedIsIdeal(prev.target, prev.timestamp - first.value.timestamp);
      if IsCompactOf(block.target, Ideal(prev.target, prev.timestamp - first.value.timestamp))
         && IsCompactOf(Demanded(prev.target, prev.timestamp - first.value.timestamp), Ideal(prev.target, prev.timestamp - first.value.timestamp)) {
        CompactUnique(block.target, Demanded(prev.target, prev.timestamp - first.value.timestamp),
                      Ideal(prev.target, prev.timestamp - first.value.timestamp));
      }
    }
  }

  /** Every stored block with a stored predecessor was accepted. */
  predicate AllAccepted(blocks: BlockSet) {
    forall h :: h in blocks && blocks[h].prevBlock in blocks ==>
      Accepts(blocks[h], blocks[blocks[h].prevBlock], TransitionTime(blocks[h], blocks))
  }

  /** Along such a chain the target does not change from one transition to the next. */
  lemma {:induction false} TargetHolds(blocks: BlockSet, b: Block, n: nat)
    requires AllLinked(blocks) && Keyed(blocks) && AllAccepted(blocks) && b.blockHash in blocks && blocks[b.blockHash] == b
    requires n <= b.height % DIFFICULTY_INTERVAL && Ancestor(blocks, b, n).Some?
    ensures Ancestor(blocks, b, n).value.target == b.target
    decreases n
  {
    if n > 0 {
      var p := blocks[b.prevBlock];
      assert b.height == p.height + 1;
      TargetHolds(blocks, p, n - 1);
    }
  }

  /** So every stored block carries the consensus target of its own period: counted from the first block of the period
      before, 2016 below the transition it goes back to. */
  lemma TargetOfPeriod(blocks: BlockSet, b: Block)
    requires AllLinked(blocks) && Keyed(blocks) && AllAccepted(blocks) && b.blockHash in blocks && blocks[b.blockHash] == b
    requires var k := b.height % DIFFICULTY_INTERVAL;
             Ancestor(blocks, b, k + 1).Some? && IsRegular(Ancestor(blocks, b, k + 1).value.target)
    ensures var k := b.height % DIFFICULTY_INTERVAL;
            var prev, first := Ancestor(blocks, b, k + 1).value, Ancestor(blocks, b, k + 2016);
            && prev.height + 1 == b.height - k
            && first.Some? && first.value.height == b.height - k - 2016
            && Canonical(b.target) && b.target <= MAX_PROOF_OF_WORK && IsRetargeted(b.target, prev, first.value)
  {
    hide Demanded, Ideal, Ancestor, IsCompactOf, Canonical, Expand;
    var k := b.height % DIFFICULTY_INTERVAL;
    AncestorPrefix(blocks, b, k, k + 1);
    var t := Ancestor(blocks, b, k).value;
    StoredAncestor(blocks, b, k);
    AncestorHeight(blocks, b, k);
    AncestorHeight(blocks, b, k + 1);
    AncestorStep(blocks, b, k);
    TargetHolds(blocks, b, k);
    assert t.height % DIFFICULTY_INTERVAL == 0;
    TransitionIsIdeal(t, blocks);
    AncestorSum(blocks, b, k, 2016);
  }

  lemma {:induction false} StoredAncestor(blocks: BlockSet, b: Block, n: nat)
    requires Keyed(blocks) && b.blockHash in blocks && blocks[b.blockHash] == b && Ancestor(blocks, b, n).Some?
    ensures var a := Ancestor(blocks, b, n).value; a.blockHash in blocks && blocks[a.blockHash] == a
    decreases n
  {
    if n > 0 {
      StoredAncestor(blocks, blocks[b.prevBlock], n - 1);
    }
  }

  /** Storing an accepted block, with all it follows stored, keeps the chain accepted. */
  lemma AcceptedGrows(blocks: BlockSet, block: Block)
    requires AllLinked(blocks) && Keyed(blocks) && AllAccepted(blocks) && block.blockHash !in blocks
    requires forall h :: h in blocks ==> blocks[h].prevBlock != block.blockHash
    requires block.prevBlock in blocks && block.prevBlock != block.blockHash
    requires Accepts(block, blocks[block.prevBlock], TransitionTime(block, blocks))
    ensures AllAccepted(blocks[block.blockHash := block])
  {
    var added := blocks[block.blockHash := block];
    forall h | h in added && added[h].prevBlock in added
      ensures Accepts(added[h], added[added[h].prevBlock], TransitionTime(added[h], added))
    {
      AncestorInAdded(blocks, block, added[h], DIFFICULTY_INTERVAL);
    }
    hide Accepts;
  }

  lemma {:induction false} AncestorInAdded(blocks: BlockSet, block: Block, b: Block, n: nat)
    requires forall h :: h in blocks ==> blocks[h].prevBlock != block.blockHash
    requires b.prevBlock != block.blockHash
    ensures Ancestor(blocks[block.blockHash := block], b, n) == Ancestor(blocks, b, n)
    decreases n
  {
    if n > 0 && b.prevBlock in blocks {
      AncestorInAdded(blocks, block, blocks[b.prevBlock], n - 1);
    }
  }
}

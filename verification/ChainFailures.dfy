/** When exactly an internal check of bitcoin/BRPeerManager.c stops a block relay. */
module ChainFailures {
  import opened Wrappers
  import opened Blocks
  import opened Retarget
  import opened BlockChain
  import opened ChainTheorems
  import opened Reorganisation

  /** The last block reached from `b` by following predecessors within the set. */
  function Lowest(blocks: BlockSet, b: Block): (r: Block)
    requires AllLinked(blocks) && Linked(blocks, b)
    ensures r.height <= b.height
    decreases b.height
  {
    if b.prevBlock in blocks then Lowest(blocks, blocks[b.prevBlock]) else b
  }

  lemma {:induction false} LowestAncestor(blocks: BlockSet, b: Block, n: nat)
    requires AllLinked(blocks) && Linked(blocks, b)
    ensures Ancestor(blocks, b, n).None? <==> Lowest(blocks, b).height + n > b.height
    decreases n
  {
    if n > 0 && b.prevBlock in blocks {
      LowestAncestor(blocks, blocks[b.prevBlock], n - 1);
    }
  }

  /** The walk down the main chain leaves the set iff the chain ends above the height looked for. */
  lemma DownToMisses(blocks: BlockSet, b: Block, height: nat)
    requires AllLinked(blocks) && Linked(blocks, b)
    ensures DownTo(blocks, b, height).None? <==> Lowest(blocks, b).height > height
  {
    if b.height > height {
      LowestAncestor(blocks, b, b.height - height);
    }
  }

  /** Which branch the two-pointer walk leaves the set on is decided by how far the branches reach. */
  lemma {:induction false} LowerBranchLasts(blocks: BlockSet, b: Block, b2: Block)
    requires AllLinked(blocks) && Linked(blocks, b) && Linked(blocks, b2) && b.height >= b2.height
    ensures Join(blocks, b, b2).0.None? ==> Lowest(blocks, b).height >= Lowest(blocks, b2).height
    ensures Join(blocks, b, b2).1.None? ==> Join(blocks, b, b2).0.Some? && Lowest(blocks, b).height < Lowest(blocks, b2).height
    decreases b.height
  {
    if b.blockHash != b2.blockHash && b.prevBlock in blocks {
      var p := blocks[b.prevBlock];
      if p.height >= b2.height {
        LowerBranchLasts(blocks, p, b2);
      } else if b2.prevBlock in blocks {
        LowerBranchLasts(blocks, p, blocks[b2.prevBlock]);
      }
    }
  }

  /** The walk misses the new branch iff the branches do not meet and it reaches no further down. */
  lemma JoinMisses(blocks: BlockSet, b: Block, b2: Block)
    requires AllLinked(blocks) && Keyed(blocks) && Stored(blocks, b) && Stored(blocks, b2) && b.height >= b2.height
    ensures Join(blocks, b, b2).0.None?
       <==> (forall z :: !IsCommon(blocks, b, b2, z)) && Lowest(blocks, b).height >= Lowest(blocks, b2).height
  {
    hide IsCommon, Join, Lowest;
    JoinIsHighest(blocks, b, b2);
    LowerBranchLasts(blocks, b, b2);
  }

  /** A verified block, not on the tip, stops the manager: a known one, if the main chain as stored
      ends above it; or a new one that outgrows the main chain on a branch that does not meet it
      within the set and reaches no further down. */
  ghost predicate Stops(p: Params, c: Chain, r: Relay, H: Hash -> nat)
    requires Inv(p, c, H) && Sound(p, H) && Commits(r.block, H)
  {
    && !IsTooNew(p, r.block) && r.filterReady
    && r.block.prevBlock in c.blocks && r.block.prevBlock != c.tip.blockHash
    && var block := r.block.(height := c.blocks[r.block.prevBlock].height + 1);
       InsertionLinks(p, c, block, H);
       var blocks := Pruned(c.blocks, block);
       var added := blocks[block.blockHash := block];
       TipLinks(p, c, block, H);
       && Verified(p, c.blocks, block)
       && if block.blockHash in blocks then Lowest(blocks, c.tip).height > block.height
          else
            && block.height > LastCheckpoint(p) && block.height > c.tip.height
            && !(c.tip.height < r.peerLast && block.height > c.tip.height + 1)
            && (forall z :: !IsCommon(added, block, c.tip, z))
            && Lowest(added, block).height >= Lowest(added, c.tip).height
  }

  /** The tip is linked in the set before and after the block is added. */
  lemma TipLinks(p: Params, c: Chain, block: Block, H: Hash -> nat)
    requires Inv(p, c, H) && Sound(p, H)
    requires Commits(block, H) && block.prevBlock in c.blocks && block.height == c.blocks[block.prevBlock].height + 1
    requires AllLinked(c.blocks) && Linked(c.blocks, block)
    ensures var blocks := Pruned(c.blocks, block);
            var added := blocks[block.blockHash := block];
            && AllLinked(blocks) && Linked(blocks, c.tip) && Stored(blocks, c.tip) && block.prevBlock in blocks
            && AllLinked(added) && Linked(added, c.tip) && Linked(added, block) && Keyed(added) && Stored(added, block)
            && (block.blockHash !in blocks ==> Stored(added, c.tip))
  {
    hide Pruned, AgreesWithCheckpoint;
    InsertionLinks(p, c, block, H);
    PruningKeeps(p, c, block, H);
    PredecessorSurvives(c.blocks, block);
  }

  /** An internal check stops the manager exactly then. */
  lemma StepFails(p: Params, c: Chain, r: Relay, H: Hash -> nat)
    requires Inv(p, c, H) && Sound(p, H) && Commits(r.block, H)
    ensures Step(p, c, r, H).1.Failed? <==> Stops(p, c, r, H)
  {
    hide Inv, Verified, Pruned, DownTo, Join, Lowest, IsCommon, Stored;
    if r.block.prevBlock in c.blocks {
      var block := r.block.(height := c.blocks[r.block.prevBlock].height + 1);
      InsertionLinks(p, c, block, H);
      TipLinks(p, c, block, H);
      var blocks := Pruned(c.blocks, block);
      DownToMisses(blocks, c.tip, block.height);
      if block.blockHash !in blocks && block.height > c.tip.height {
        JoinMisses(blocks[block.blockHash := block], block, c.tip);
      }
    }
  }

  /** For example, with the tip at the first of two checkpoints, a peer that reports a low height can
      relay a block that follows the second. */
  function TwoCheckpoints(): Chain {
    var first, second := Block(1, 0, 0, 0, 0, 0, []), Block(2, 0, 0, 0, 10, 0, []);
    Chain(map[1 := first, 2 := second], map[], first, 0)
  }

  function TwoParams(): Params {
    Params([TwoCheckpoints().blocks[1], TwoCheckpoints().blocks[2]], 0xffff_ffff, (b, s) => true)
  }

  function TwoHeights(h: Hash): nat { if h == 2 then 10 else if h == 3 then 11 else 0 }

  lemma StopsOnLaterCheckpoint()
    ensures var r := Relay(Block(3, 2, 0, 0, 0, 1, []), 0, true, 0);
            && Inv(TwoParams(), TwoCheckpoints(), TwoHeights) && Sound(TwoParams(), TwoHeights) && Commits(r.block, TwoHeights)
            && Step(TwoParams(), TwoCheckpoints(), r, TwoHeights).1.Failed?
  {
    var p, c := TwoParams(), TwoCheckpoints();
    TwoAreSound(p, c);
    TwoVerified(p, c);
    hide Verified, Pruned, Join;
    TwoMiss(c);
  }

  lemma TwoLookups(p: Params, c: Chain)
    requires p == TwoParams() && c == TwoCheckpoints()
    ensures CheckpointAt(p.checkpoints, 0) == Some(c.tip) && CheckpointAt(p.checkpoints, 10) == Some(c.blocks[2])
    ensures CheckpointAt(p.checkpoints, 11) == None
  {
    assert p.checkpoints[..1] == [c.tip] && [c.tip][..0] == [];
    assert CheckpointAt([c.tip], 11) == CheckpointAt([], 11) == None;
  }

  lemma TwoAreSound(p: Params, c: Chain)
    requires p == TwoParams() && c == TwoCheckpoints()
    ensures Inv(p, c, TwoHeights) && Sound(p, TwoHeights)
  {
    TwoLookups(p, c);
    assert p.checkpoints[0].blockHash == 1 && p.checkpoints[1].blockHash == 2;
    hide CheckpointAt;
  }

  lemma TwoVerified(p: Params, c: Chain)
    requires p == TwoParams() && c == TwoCheckpoints() && AllLinked(c.blocks)
    ensures var block := Block(3, 2, 0, 0, 11, 1, []);
            Verified(p, c.blocks, block) && Pruned(c.blocks, block) == c.blocks
  {
    TwoLookups(p, c);
  }

  lemma TwoMiss(c: Chain)
    requires c == TwoCheckpoints()
    ensures var block := Block(3, 2, 0, 0, 11, 1, []);
            var added := c.blocks[3 := block];
            AllLinked(added) && Join(added, block, c.tip).0.None?
  {
    var block := Block(3, 2, 0, 0, 11, 1, []);
    var added := c.blocks[3 := block];
    assert Join(added, block, c.tip) == Join(added, c.blocks[2], c.tip) == (None, Some(c.tip));
  }
}

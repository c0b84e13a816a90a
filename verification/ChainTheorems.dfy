/** What every run of block relays keeps, whatever arrives in whatever order. */
module ChainTheorems {
  import opened Wrappers
  import opened Blocks
  import opened Retarget
  import opened BlockChain

  // ----- pruning

  /** Whatever pruning removes has a stored successor. */
  lemma {:induction false} StaleHasSuccessor(blocks: BlockSet, h: Hash, e: Hash, x: Hash)
    requires AllLinked(blocks) && e in blocks && blocks[e].prevBlock == h && x in Stale(blocks, h)
    ensures x in blocks && exists s :: s in blocks && blocks[s].prevBlock == x
    decreases if h in blocks then blocks[h].height + 1 else 0
  {
    if x != h {
      StaleHasSuccessor(blocks, blocks[h].prevBlock, h, x);
    }
  }

  /** and lies below the block it starts from. */
  lemma {:induction false} StaleIsBelow(blocks: BlockSet, h: Hash, x: Hash)
    requires AllLinked(blocks) && Keyed(blocks) && x in Stale(blocks, h)
    ensures h in blocks && x in blocks && blocks[x].height <= blocks[h].height
    ensures blocks[x].height % DIFFICULTY_INTERVAL != 0
    decreases if h in blocks then blocks[h].height + 1 else 0
  {
    if x in Stale(blocks, blocks[h].prevBlock) {
      StaleIsBelow(blocks, blocks[h].prevBlock, x);
    }
  }

  lemma {:induction false} AncestorIsStored(blocks: BlockSet, b: Block, n: nat)
    requires n > 0 && Keyed(blocks) && Ancestor(blocks, b, n).Some?
    ensures var a := Ancestor(blocks, b, n).value; a.blockHash in blocks && blocks[a.blockHash] == a
    decreases n
  {
    var p := Get(blocks, b.prevBlock).value;
    if n > 1 {
      AncestorIsStored(blocks, p, n - 1);
    } else {
      assert Ancestor(blocks, p, 0) == Some(p);
    }
  }

  /** Pruning spares the tip and the last 2016 ancestors of the block that triggers it. */
  lemma PruningKeeps(p: Params, c: Chain, block: Block, H: Hash -> nat)
    requires Inv(p, c, H) && AllLinked(c.blocks) && Linked(c.blocks, block)
    ensures Inv(p, c.(blocks := Pruned(c.blocks, block)), H)
    ensures forall h :: h in Pruned(c.blocks, block) ==> h in c.blocks && Pruned(c.blocks, block)[h] == c.blocks[h]
    ensures forall h :: h in c.blocks && h !in Pruned(c.blocks, block) ==>
              c.blocks[h].height + DIFFICULTY_INTERVAL < block.height && c.blocks[h].height % DIFFICULTY_INTERVAL != 0
  {
    hide Ancestor, Stale;
    var pruned := Pruned(c.blocks, block);
    if block.height % DIFFICULTY_INTERVAL == 0 && TransitionBlock(c.blocks, block).Some? {
      var t := TransitionBlock(c.blocks, block).value;
      AncestorIsStored(c.blocks, block, DIFFICULTY_INTERVAL);
      AncestorHeight(c.blocks, block, DIFFICULTY_INTERVAL);
      var stale := Stale(c.blocks, t.prevBlock);
      forall x | x in stale
        ensures x in c.blocks && x != c.tip.blockHash
        ensures c.blocks[x].height + DIFFICULTY_INTERVAL < block.height && c.blocks[x].height % DIFFICULTY_INTERVAL != 0
      {
        StaleHasSuccessor(c.blocks, t.prevBlock, t.blockHash, x);
        StaleIsBelow(c.blocks, t.prevBlock, x);
      }
    }
  }

  // ----- one step

  /** Checkpoints are not neighbours. */
  lemma CheckpointsApart(p: Params, g: Hash, h: Hash, H: Hash -> nat)
    requires Sound(p, H) && IsCheckpoint(p, g) && IsCheckpoint(p, h)
    ensures H(h) != H(g) + 1
  {
    var i :| 0 <= i < |p.checkpoints| && p.checkpoints[i].blockHash == g;
    var j :| 0 <= j < |p.checkpoints| && p.checkpoints[j].blockHash == h;
  }

  lemma AddedHeights(p: Params, blocks: BlockSet, block: Block, H: Hash -> nat)
    requires TrueHeights(p, blocks, H) && Commits(block, H) && block.prevBlock != 0
    requires block.height == H(block.blockHash) && AgreesWithCheckpoint(p, block)
    ensures TrueHeights(p, blocks[block.blockHash := block], H)
  {
  }

  /** A block above the tip becomes the tip. */
  lemma NewTipIsLast(p: Params, blocks: BlockSet, tip: Block, block: Block, H: Hash -> nat)
    requires TrueHeights(p, blocks, H) && TipIsLast(p, blocks, tip)
    requires Commits(block, H) && block.height == H(block.blockHash) > tip.height && block.prevBlock in blocks
    ensures TipIsLast(p, blocks[block.blockHash := block], block)
  {
    forall h | h in blocks ensures blocks[h].prevBlock != block.blockHash {
      assert Commits(blocks[h], H);
    }
  }

  /** A block not above the tip, or replacing a stored checkpoint right above it, leaves it last. */
  lemma OldTipIsLast(p: Params, blocks: BlockSet, tip: Block, block: Block, H: Hash -> nat)
    requires Sound(p, H) && TrueHeights(p, blocks, H) && TipIsLast(p, blocks, tip)
    requires Commits(block, H) && block.height == H(block.blockHash) && block.prevBlock in blocks
    requires block.prevBlock != tip.blockHash && block.blockHash != tip.blockHash
    requires block.height <= tip.height || block.blockHash in blocks
    ensures TipIsLast(p, blocks[block.blockHash := block], tip)
  {
    if block.height > tip.height {
      var prev := blocks[block.prevBlock];
      var old0 := blocks[block.blockHash];
      if IsCheckpoint(p, block.prevBlock) && IsCheckpoint(p, block.blockHash) {
        CheckpointsApart(p, block.prevBlock, block.blockHash, H);
      }
      assert old0.prevBlock == 0 ==> IsCheckpoint(p, block.blockHash);
    }
  }

  /** A stored block that is the tip again. */
  lemma SameTipIsLast(p: Params, blocks: BlockSet, tip: Block, block: Block, H: Hash -> nat)
    requires TrueHeights(p, blocks, H) && TipIsLast(p, blocks, tip)
    requires Commits(block, H) && block.height == H(block.blockHash) && block.prevBlock in blocks
    requires block.blockHash == tip.blockHash
    ensures TipIsLast(p, blocks[block.blockHash := block], block)
  {
    assert tip.height == block.height;
    assert H(block.prevBlock) != H(block.blockHash);
  }

  lemma PlaceKeeps(p: Params, c: Chain, block: Block, peerLast: nat, H: Hash -> nat)
    requires Inv(p, c, H) && Sound(p, H) && AgreesWithCheckpoint(p, block)
    requires Commits(block, H) && block.height == H(block.blockHash) && block.prevBlock in c.blocks
    requires AllLinked(c.blocks) && Linked(c.blocks, block)
    requires AllLinked(c.blocks[block.blockHash := block]) && Linked(c.blocks[block.blockHash := block], block)
    ensures var (c', outcome) := Place(p, c, block, peerLast);
            && OrphansWait(c'.orphans, H)
            && (outcome.Kept? ==> outcome.block == block)
            && (!outcome.Failed? ==> Inv(p, c', H))
            && (c'.tip.blockHash == c.tip.blockHash || c'.tip.height > c.tip.height)
            && c'.tip.height >= c.tip.height
  {
    hide TipIsLast, TrueHeights, Join, DownTo, AgreesWithCheckpoint;
    var (c', outcome) := Place(p, c, block, peerLast);
    Unpack(p, c.blocks, c.tip, H);
    AddedHeights(p, c.blocks, block, H);
    if block.height > c.tip.height {
      NewTipIsLast(p, c.blocks, c.tip, block, H);
    }
    if block.blockHash == c.tip.blockHash {
      SameTipIsLast(p, c.blocks, c.tip, block, H);
    } else if block.prevBlock != c.tip.blockHash && (block.height <= c.tip.height || block.blockHash in c.blocks) {
      OldTipIsLast(p, c.blocks, c.tip, block, H);
    }
    if DownTo(c.blocks, c.tip, block.height).Some? {
      DownToItself(c.blocks, c.tip, block.height);
    }
  }

  lemma DownToItself(blocks: BlockSet, b: Block, height: nat)
    ensures b.height <= height ==> DownTo(blocks, b, height) == Some(b)
  {
  }

  lemma Unpack(p: Params, blocks: BlockSet, tip: Block, H: Hash -> nat)
    requires TrueHeights(p, blocks, H) && TipIsLast(p, blocks, tip)
    ensures tip.blockHash in blocks && tip.height == H(tip.blockHash)
    ensures forall h :: h in blocks ==> h != 0 && blocks[h].blockHash == h && blocks[h].height == H(h)
  {
  }

  /** Every step that does not end the run keeps the invariant; in every step the tip stays the
      same block or gives way to a strictly higher one; and the orphan a step hands back waits for
      exactly the block just kept. */
  lemma StepKeeps(p: Params, c: Chain, r: Relay, H: Hash -> nat)
    requires Inv(p, c, H) && Sound(p, H) && Commits(r.block, H)
    ensures var (c', outcome, next) := Step(p, c, r, H);
            && (!outcome.Failed? ==> Inv(p, c', H))
            && (c'.tip.blockHash == c.tip.blockHash || c'.tip.height > c.tip.height)
            && c'.tip.height >= c.tip.height
            && (next.Some? ==> outcome.Kept? && next.value.prevBlock == outcome.block.blockHash == r.block.blockHash
                               && Commits(next.value, H))
  {
    hide TipIsLast, TrueHeights, Verified, Pruned, Place;
    ReceiveKeeps(p, c, r, H);
  }

  lemma ReceiveKeeps(p: Params, c: Chain, r: Relay, H: Hash -> nat)
    requires Inv(p, c, H) && Sound(p, H) && Commits(r.block, H)
    ensures var (c', outcome) := Receive(p, c, r, H);
            && OrphansWait(c'.orphans, H)
            && (!outcome.Failed? ==> Inv(p, c', H))
            && (c'.tip.blockHash == c.tip.blockHash || c'.tip.height > c.tip.height)
            && c'.tip.height >= c.tip.height
            && (outcome.Kept? ==> outcome.block.blockHash == r.block.blockHash && outcome.block.prevBlock == r.block.prevBlock)
  {
    hide TipIsLast, TrueHeights, Pruned, Place, AgreesWithCheckpoint;
    if r.block.prevBlock in c.blocks {
      var block := r.block.(height := c.blocks[r.block.prevBlock].height + 1);
      Unpack(p, c.blocks, c.tip, H);
      InsertionLinks(p, c, block, H);
      var c' := c.(blocks := Pruned(c.blocks, block));
      PruningKeeps(p, c, block, H);
      PredecessorSurvives(c.blocks, block);
      if Verified(p, c.blocks, block) {
        PlaceKeeps(p, c', block, r.peerLast, H);
      }
    }
  }

  lemma PredecessorSurvives(blocks: BlockSet, block: Block)
    requires AllLinked(blocks) && Linked(blocks, block) && block.prevBlock in blocks
    requires forall h :: h in blocks && h !in Pruned(blocks, block) ==> blocks[h].height + DIFFICULTY_INTERVAL < block.height
    ensures block.prevBlock in Pruned(blocks, block)
  {
    hide Pruned;
  }

  // ----- runs

  /** Where a sequence of relays leads, and whether an internal check stopped it on the way. */
  function Run(p: Params, c: Chain, rs: seq<Relay>, ghost H: Hash -> nat): (res: (Chain, bool))
    requires Inv(p, c, H) && Sound(p, H) && forall i :: 0 <= i < |rs| ==> Commits(rs[i].block, H)
    decreases |rs|
  {
    if rs == [] then (c, false)
    else
      hide Inv, Step;
      StepKeeps(p, c, rs[0], H);
      var (c', outcome, _) := Step(p, c, rs[0], H);
      if outcome.Failed? then (c', true) else Run(p, c', rs[1..], H)
  }

  /** For every sequence of relayed blocks: unless it was stopped, the chain still satisfies the
      invariant; the tip is the one it started from or a strictly higher block. */
  lemma {:induction false} RunKeeps(p: Params, c: Chain, rs: seq<Relay>, H: Hash -> nat)
    requires Inv(p, c, H) && Sound(p, H) && forall i :: 0 <= i < |rs| ==> Commits(rs[i].block, H)
    ensures var (c', stopped) := Run(p, c, rs, H);
            && (!stopped ==> Inv(p, c', H))
            && (c'.tip.blockHash == c.tip.blockHash || c'.tip.height > c.tip.height)
            && c'.tip.height >= c.tip.height
    decreases |rs|
  {
    hide Inv, Step;
    if rs != [] {
      StepKeeps(p, c, rs[0], H);
      var (c', outcome, _) := Step(p, c, rs[0], H);
      if !outcome.Failed? {
        RunKeeps(p, c', rs[1..], H);
      }
    }
  }

  /** No stored block descends from the tip, at any distance. */
  lemma {:induction false} NothingFollowsTip(p: Params, c: Chain, H: Hash -> nat, h: Hash, n: nat)
    requires Inv(p, c, H) && h in c.blocks && n > 0
    ensures Ancestor(c.blocks, c.blocks[h], n).Some? ==> Ancestor(c.blocks, c.blocks[h], n).value.blockHash != c.tip.blockHash
    decreases n
  {
    var b := c.blocks[h];
    if n > 1 && b.prevBlock in c.blocks {
      NothingFollowsTip(p, c, H, b.prevBlock, n - 1);
    } else if b.prevBlock in c.blocks {
      assert Ancestor(c.blocks, c.blocks[b.prevBlock], 0) == Some(c.blocks[b.prevBlock]);
    }
  }
}

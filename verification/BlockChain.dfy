/** The block-relay step of bitcoin/BRPeerManager.c as a function on the stored chain state. */
module BlockChain {
  import opened Wrappers
  import opened Blocks
  import opened Retarget

  const BLOCK_UNKNOWN_HEIGHT: nat := 0x7fff_ffff
  const ONE_WEEK: nat := 7 * 24 * 60 * 60
  const TWO_HOURS: nat := 2 * 60 * 60

  /** What the manager is created with: checkpoints in order, as blocks without a predecessor,
      and the difficulty rule of the network. */
  datatype Params = Params(checkpoints: seq<Block>, earliestKeyTime: nat, verifyDifficulty: (Block, BlockSet) -> bool)

  /** `orphans` is indexed by `prevBlock`. */
  datatype Chain = Chain(blocks: BlockSet, orphans: BlockSet, tip: Block, estimatedHeight: nat)

  /** A relayed block, and what the step reads besides: the clock, whether the bloom filter is
      loaded, and the height the peer reported. */
  datatype Relay = Relay(block: Block, now: nat, filterReady: bool, peerLast: nat)

  /** How a relay ends: the block is dropped, or kept in some form, or an internal check fails
      and the manager stops with its lock held. */
  datatype Outcome = Dropped | Kept(block: Block) | Failed

  // ----- verification of a block whose predecessor is stored

  /** What following `prevBlock` from `h` removes: every block not at a difficulty transition. */
  function Stale(blocks: BlockSet, h: Hash): set<Hash>
    requires AllLinked(blocks)
    decreases if h in blocks then blocks[h].height + 1 else 0
  {
    if h !in blocks then {}
    else (if blocks[h].height % DIFFICULTY_INTERVAL != 0 then {h} else {}) + Stale(blocks, blocks[h].prevBlock)
  }

  function CheckpointAt(checkpoints: seq<Block>, height: nat): Option<Block> {
    if checkpoints == [] then None
    else if checkpoints[|checkpoints| - 1].height == height then Some(checkpoints[|checkpoints| - 1])
    else CheckpointAt(checkpoints[..|checkpoints| - 1], height)
  }

  predicate AgreesWithCheckpoint(p: Params, block: Block) {
    var checkpoint := CheckpointAt(p.checkpoints, block.height);
    checkpoint.Some? ==> checkpoint.value.blockHash == block.blockHash
  }

  /** The block from which difficulty counts. */
  function TransitionBlock(blocks: BlockSet, block: Block): Option<Block> {
    Ancestor(blocks, block, DIFFICULTY_INTERVAL)
  }

  /** The block set after verification: at a transition, older blocks are freed. */
  function Pruned(blocks: BlockSet, block: Block): BlockSet
    requires AllLinked(blocks)
  {
    if block.height % DIFFICULTY_INTERVAL == 0 && TransitionBlock(blocks, block).Some?
    then blocks - Stale(blocks, TransitionBlock(blocks, block).value.prevBlock)
    else blocks
  }

  predicate Verified(p: Params, blocks: BlockSet, block: Block)
    requires AllLinked(blocks)
  {
    && (block.height % DIFFICULTY_INTERVAL == 0 ==> TransitionBlock(blocks, block).Some?)
    && p.verifyDifficulty(block, Pruned(blocks, block))
    && AgreesWithCheckpoint(p, block)
  }

  // ----- walks down the branches

  /** The first block at or below `height`, from `b` down. */
  function DownTo(blocks: BlockSet, b: Block, height: nat): Option<Block> {
    if b.height <= height then Some(b) else Ancestor(blocks, b, b.height - height)
  }

  /** Walking back from two blocks until they meet; `None` where a branch leaves the set. */
  function Join(blocks: BlockSet, b: Block, b2: Block): (r: (Option<Block>, Option<Block>))
    requires AllLinked(blocks) && Linked(blocks, b)
    decreases b.height
  {
    if b.blockHash == b2.blockHash then (Some(b), Some(b2))
    else match Get(blocks, b.prevBlock)
      case None => (None, Some(b2))
      case Some(p) =>
        if p.height >= b2.height then Join(blocks, p, b2)
        else match Get(blocks, b2.prevBlock)
          case None => (Some(p), None)
          case Some(p2) => Join(blocks, p, p2)
  }

  // ----- the step

  predicate IsTooNew(p: Params, block: Block) {
    block.totalTx == 0 && (block.timestamp + ONE_WEEK - TWO_HOURS) % TWO_32 > p.earliestKeyTime
  }

  function LastCheckpoint(p: Params): nat
    requires p.checkpoints != []
  {
    p.checkpoints[|p.checkpoints| - 1].height
  }

  /** A verified block is placed: it extends the tip, replaces a stored block, waits for a rescan,
      is ignored as an old fork, or starts or extends a fork, which may become the main chain. */
  function Place(p: Params, c: Chain, block: Block, peerLast: nat): (r: (Chain, Outcome))
    requires p.checkpoints != [] && AllLinked(c.blocks) && Linked(c.blocks, block)
    requires AllLinked(c.blocks[block.blockHash := block]) && Linked(c.blocks[block.blockHash := block], block)
  {
    var added := c.blocks[block.blockHash := block];
    if block.prevBlock == c.tip.blockHash then
      (c.(blocks := added, tip := block), Kept(block))
    else if block.blockHash in c.blocks then
      match DownTo(c.blocks, c.tip, block.height)
      case None => (c, Failed)
      case Some(b) =>
        (c.(blocks := added, tip := if b.blockHash == block.blockHash && block.height == c.tip.height then block else c.tip),
         Kept(block))
    else if c.tip.height < peerLast && block.height > c.tip.height + 1 then
      (c.(orphans := c.orphans[block.prevBlock := block]), Kept(block))
    else if block.height <= LastCheckpoint(p) then
      (c, Dropped)
    else if block.height <= c.tip.height then
      (c.(blocks := added), Kept(block))
    else if Join(added, block, c.tip).0.None? then
      (c.(blocks := added), Failed)
    else
      (c.(blocks := added, tip := block), Kept(block))
  }

  /** The chain before the check for waiting orphans. */
  function Receive(p: Params, c: Chain, r: Relay, ghost H: Hash -> nat): (res: (Chain, Outcome))
    requires Inv(p, c, H) && Sound(p, H) && (r.block.prevBlock in c.blocks ==> Commits(r.block, H))
  {
    if IsTooNew(p, r.block) || !r.filterReady then (c, Dropped)
    else if r.block.prevBlock !in c.blocks then
      if (r.block.timestamp + ONE_WEEK) % TWO_32 < r.now then (c, Dropped)
      else (c.(orphans := c.orphans[r.block.prevBlock := r.block]), Kept(r.block))
    else
      var block := r.block.(height := c.blocks[r.block.prevBlock].height + 1);
      InsertionLinks(p, c, block, H);
      var c' := c.(blocks := Pruned(c.blocks, block));
      if !Verified(p, c.blocks, block) then (c', Dropped) else Place(p, c', block, r.peerLast)
  }

  /** The whole step; the result also holds the orphan that now has its predecessor. */
  function Step(p: Params, c: Chain, r: Relay, ghost H: Hash -> nat): (res: (Chain, Outcome, Option<Block>))
    requires Inv(p, c, H) && Sound(p, H) && (r.block.prevBlock in c.blocks ==> Commits(r.block, H))
  {
    var (c', outcome) := Receive(p, c, r, H);
    if outcome.Kept? && outcome.block.height != BLOCK_UNKNOWN_HEIGHT then
      var block := outcome.block;
      (c'.(estimatedHeight := if block.height > c'.estimatedHeight then block.height else c'.estimatedHeight,
           orphans := c'.orphans - {block.blockHash}),
       outcome, Get(c'.orphans, block.blockHash))
    else (c', outcome, None)
  }

  // ----- what every step keeps

  /** A block's hash commits to its predecessor's, so there is a height `H` of hashes that grows by
      one along every link. */
  ghost predicate Commits(b: Block, H: Hash -> nat) {
    b.blockHash != 0 && (b.prevBlock != 0 ==> H(b.blockHash) == H(b.prevBlock) + 1)
  }

  predicate IsCheckpoint(p: Params, h: Hash) {
    exists i :: 0 <= i < |p.checkpoints| && p.checkpoints[i].blockHash == h
  }

  /** Checkpoints carry their true heights, more than one apart; heights fit below the sentinel. */
  ghost predicate Sound(p: Params, H: Hash -> nat) {
    && p.checkpoints != []
    && (forall i :: 0 <= i < |p.checkpoints| ==>
          p.checkpoints[i].prevBlock == 0 != p.checkpoints[i].blockHash && p.checkpoints[i].height == H(p.checkpoints[i].blockHash))
    && (forall i, j :: 0 <= i < j < |p.checkpoints| ==> p.checkpoints[i].height + 1 < p.checkpoints[j].height)
    && (forall h :: H(h) < BLOCK_UNKNOWN_HEIGHT)
  }

  /** Stored blocks: under their own hashes, at their true heights, agreeing with checkpoints; only
      checkpoints lack a predecessor. */
  ghost predicate TrueHeights(p: Params, blocks: BlockSet, H: Hash -> nat) {
    && Keyed(blocks) && 0 !in blocks
    && forall h :: h in blocks ==>
         && Commits(blocks[h], H) && blocks[h].height == H(h)
         && AgreesWithCheckpoint(p, blocks[h])
         && (blocks[h].prevBlock == 0 ==> IsCheckpoint(p, h))
  }

  /** The tip is stored and nothing stored follows it; a block with a predecessor is at most one
      above the tip, and there only as a checkpoint. */
  predicate TipIsLast(p: Params, blocks: BlockSet, tip: Block) {
    && tip.blockHash in blocks && blocks[tip.blockHash] == tip
    && forall h :: h in blocks ==>
         && blocks[h].prevBlock != tip.blockHash
         && (blocks[h].prevBlock != 0 ==>
               blocks[h].height <= tip.height || (blocks[h].height == tip.height + 1 && IsCheckpoint(p, h)))
  }

  ghost predicate OrphansWait(orphans: BlockSet, H: Hash -> nat) {
    forall h :: h in orphans ==> orphans[h].prevBlock == h && Commits(orphans[h], H)
  }

  ghost predicate Inv(p: Params, c: Chain, H: Hash -> nat) {
    TrueHeights(p, c.blocks, H) && TipIsLast(p, c.blocks, c.tip) && OrphansWait(c.orphans, H)
  }

  lemma HeightsLink(p: Params, blocks: BlockSet, H: Hash -> nat)
    requires TrueHeights(p, blocks, H)
    ensures AllLinked(blocks)
  {
  }

  /** Adding a block at its true height keeps every link consistent. */
  lemma InsertionLinks(p: Params, c: Chain, block: Block, H: Hash -> nat)
    requires Inv(p, c, H) && Sound(p, H)
    requires Commits(block, H) && block.prevBlock in c.blocks && block.height == c.blocks[block.prevBlock].height + 1
    ensures AllLinked(c.blocks) && Linked(c.blocks, block)
    ensures var c' := c.(blocks := Pruned(c.blocks, block));
            && AllLinked(c'.blocks) && Linked(c'.blocks, block)
            && AllLinked(c'.blocks[block.blockHash := block]) && Linked(c'.blocks[block.blockHash := block], block)
  {
    hide Stale;
    var pruned := Pruned(c.blocks, block);
    assert forall h :: h in pruned ==> h in c.blocks && pruned[h] == c.blocks[h];
    var added := pruned[block.blockHash := block];
    assert block.height == H(block.blockHash);
    forall h | h in added ensures Linked(added, added[h]) {
      assert Commits(added[h], H);
    }
  }
}

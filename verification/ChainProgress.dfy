/** That the chain of bitcoin/BRPeerManager.c moves: when exactly a relayed block becomes the tip, is stored,
    waits or is dropped. */
module ChainProgress {
  import opened Wrappers
  import opened Blocks
  import opened Retarget
  import opened BlockChain
  import opened ChainTheorems

  // ----- verification

  /** The block at the height its predecessor gives it. */
  function Raised(c: Chain, b: Block): Block
    requires b.prevBlock in c.blocks
  {
    b.(height := c.blocks[b.prevBlock].height + 1)
  }

  /** The stored blocks once a block has been checked. */
  function Checked(c: Chain, b: Block): BlockSet {
    if AllLinked(c.blocks) then Pruned(c.blocks, b) else c.blocks
  }

  /** It has the right difficulty, at a transition its 2016th ancestor is stored, and no checkpoint at its
      height has another hash. */
  predicate Passes(p: Params, c: Chain, b: Block) {
    && (b.height % DIFFICULTY_INTERVAL == 0 ==> Ancestor(c.blocks, b, DIFFICULTY_INTERVAL).Some?)
    && p.verifyDifficulty(b, Checked(c, b))
    && forall i :: 0 <= i < |p.checkpoints| && p.checkpoints[i].height == b.height ==> p.checkpoints[i].blockHash == b.blockHash
  }

  lemma {:induction false} CheckpointAtMeans(checkpoints: seq<Block>, height: nat)
    requires forall i, j :: 0 <= i < j < |checkpoints| ==> checkpoints[i].height < checkpoints[j].height
    ensures var c := CheckpointAt(checkpoints, height);
            && (c.Some? ==> c.value in checkpoints && c.value.height == height)
            && forall i :: 0 <= i < |checkpoints| && checkpoints[i].height == height ==> c == Some(checkpoints[i])
  {
    if checkpoints != [] {
      CheckpointAtMeans(checkpoints[..|checkpoints| - 1], height);
    }
  }

  lemma PassesIsVerified(p: Params, c: Chain, b: Block, H: Hash -> nat)
    requires AllLinked(c.blocks) && Sound(p, H)
    ensures Verified(p, c.blocks, b) <==> Passes(p, c, b)
  {
    hide Pruned, Ancestor;
    CheckpointAtMeans(p.checkpoints, b.height);
  }

  /** The relay is of a block to be checked: its filter is loaded, it is not a bare header from after the time
      from which blocks are needed, and its predecessor is stored. */
  predicate IsChecked(p: Params, c: Chain, r: Relay) {
    && r.filterReady && r.block.prevBlock in c.blocks
    && (r.block.totalTx > 0 || (r.block.timestamp + 597600) % 0x1_0000_0000 <= p.earliestKeyTime)
  }

  /** And it passes. */
  predicate IsHandled(p: Params, c: Chain, r: Relay) {
    IsChecked(p, c, r) && Passes(p, c, Raised(c, r.block))
  }

  // ----- what a step does with a block that passes

  /** The block would leave a gap above the tip while the peer has more to send. */
  predicate MustWait(c: Chain, r: Relay)
    requires r.block.prevBlock in c.blocks
  {
    && r.block.prevBlock != c.tip.blockHash && r.block.blockHash !in c.blocks
    && c.tip.height < r.peerLast && c.blocks[r.block.prevBlock].height > c.tip.height
  }

  /** The block starts or extends a fork at or below the last checkpoint. */
  predicate IsOldFork(p: Params, c: Chain, r: Relay)
    requires r.block.prevBlock in c.blocks && p.checkpoints != []
  {
    && r.block.prevBlock != c.tip.blockHash && r.block.blockHash !in c.blocks && !MustWait(c, r)
    && c.blocks[r.block.prevBlock].height < p.checkpoints[|p.checkpoints| - 1].height
  }

  lemma SameStored(p: Params, c: Chain, b: Block, H: Hash -> nat)
    requires Inv(p, c, H) && AllLinked(c.blocks) && Linked(c.blocks, b) && b.height == H(b.blockHash)
    ensures b.blockHash in Pruned(c.blocks, b) <==> b.blockHash in c.blocks
  {
    PruningKeeps(p, c, b, H);
  }

  lemma HandledStep(p: Params, c: Chain, r: Relay, H: Hash -> nat)
    requires Inv(p, c, H) && Sound(p, H) && Commits(r.block, H) && IsHandled(p, c, r)
    ensures (var b := Raised(c, r.block);
             InsertionLinks(p, c, b, H);
             Receive(p, c, r, H) == Place(p, c.(blocks := Pruned(c.blocks, b)), b, r.peerLast))
  {
    HeightsLink(p, c.blocks, H);
    hide Pruned, Place, Inv, Passes, Verified;
    InsertionLinks(p, c, Raised(c, r.block), H);
    PassesIsVerified(p, c, Raised(c, r.block), H);
  }

  /** A block is handled and the manager does not stop: exactly what becomes of it. */
  lemma HandledExactly(p: Params, c: Chain, r: Relay, H: Hash -> nat)
    requires Inv(p, c, H) && Sound(p, H) && Commits(r.block, H) && IsHandled(p, c, r)
    requires !Step(p, c, r, H).1.Failed?
    ensures (var (c', outcome, _) := Step(p, c, r, H);
             var b := Raised(c, r.block);
             if IsOldFork(p, c, r) then outcome == Dropped && c' == c.(blocks := Checked(c, b))
             else
               && outcome == Kept(b)
               && c'.estimatedHeight == (if b.height > c.estimatedHeight then b.height else c.estimatedHeight)
               && if MustWait(c, r)
                  then c'.blocks == Checked(c, b) && c'.tip == c.tip && Get(c'.orphans, b.prevBlock) == Some(b)
                  else
                    && c'.blocks == Checked(c, b)[b.blockHash := b] && c'.orphans == c.orphans - {b.blockHash}
                    && c'.tip == if b.prevBlock == c.tip.blockHash || b.blockHash == c.tip.blockHash
                                    || (b.blockHash !in c.blocks && b.height > c.tip.height) then b else c.tip)
  {
    HeightsLink(p, c.blocks, H);
    TrueHeight(p, c, Raised(c, r.block), H);
    hide Pruned, Passes, Inv, Join, DownTo, Receive, Step;
    var b := Raised(c, r.block);
    InsertionLinks(p, c, b, H);
    HandledStep(p, c, r, H);
    SameStored(p, c, b, H);
    StepUnfold(p, c, r, H);
    MainAtTip(Pruned(c.blocks, b), c.tip, b);
    TipAtHeight(p, c, b, H);
  }

  /** A step that stops the manager leaves the tip and the orphans as they were; a new block is stored by then. */
  lemma StoppedExactly(p: Params, c: Chain, r: Relay, H: Hash -> nat)
    requires Inv(p, c, H) && Sound(p, H) && Commits(r.block, H) && Step(p, c, r, H).1.Failed?
    ensures IsHandled(p, c, r)
    ensures (var (c', _, next) := Step(p, c, r, H);
             var b := Raised(c, r.block);
             && next.None? && c'.tip == c.tip && c'.orphans == c.orphans && c'.estimatedHeight == c.estimatedHeight
             && c'.blocks == if b.blockHash in c.blocks then Checked(c, b) else Checked(c, b)[b.blockHash := b])
  {
    HeightsLink(p, c.blocks, H);
    if !IsHandled(p, c, r) {
      UnhandledExactly(p, c, r, H);
      assert false;
    }
    TrueHeight(p, c, Raised(c, r.block), H);
    hide Pruned, Passes, Inv, Join, DownTo, Receive, Step;
    var b := Raised(c, r.block);
    InsertionLinks(p, c, b, H);
    HandledStep(p, c, r, H);
    SameStored(p, c, b, H);
    StepUnfold(p, c, r, H);
  }

  /** A stored block at the height of the tip that is found on the main chain is the tip. */
  lemma TipAtHeight(p: Params, c: Chain, b: Block, H: Hash -> nat)
    requires Inv(p, c, H) && b.height == H(b.blockHash)
    ensures b.blockHash == c.tip.blockHash ==> b.height == c.tip.height
    ensures b.prevBlock == c.tip.blockHash && b.prevBlock in c.blocks && b.height == c.blocks[b.prevBlock].height + 1 ==>
              b.height == c.tip.height + 1 && b.blockHash != c.tip.blockHash
  {
  }

  lemma StepUnfold(p: Params, c: Chain, r: Relay, H: Hash -> nat)
    requires Inv(p, c, H) && Sound(p, H) && Commits(r.block, H)
    ensures var (mid, outcome) := Receive(p, c, r, H);
            Step(p, c, r, H)
            == if outcome.Kept? && outcome.block.height != BLOCK_UNKNOWN_HEIGHT
               then (mid.(estimatedHeight := if outcome.block.height > mid.estimatedHeight then outcome.block.height
                                             else mid.estimatedHeight,
                          orphans := mid.orphans - {outcome.block.blockHash}),
                     outcome, Get(mid.orphans, outcome.block.blockHash))
               else (mid, outcome, None)
  {
    hide Receive, Inv;
  }

  lemma TrueHeight(p: Params, c: Chain, b: Block, H: Hash -> nat)
    requires Inv(p, c, H) && Sound(p, H) && Commits(b, H)
    requires b.prevBlock in c.blocks && b.height == c.blocks[b.prevBlock].height + 1
    ensures b.height == H(b.blockHash) < BLOCK_UNKNOWN_HEIGHT && b.prevBlock != b.blockHash
    ensures c.tip.height == H(c.tip.blockHash) && p.checkpoints != []
  {
  }

  /** The stored block on the main chain at the height of the tip is the tip. */
  lemma MainAtTip(blocks: BlockSet, tip: Block, b: Block)
    ensures b.height == tip.height ==> DownTo(blocks, tip, b.height) == Some(tip)
  {
  }

  /** A relay that is not handled is dropped and changes nothing but what verification frees, unless it is of a
      recent block whose predecessor is missing: that waits among the orphans. */
  lemma UnhandledExactly(p: Params, c: Chain, r: Relay, H: Hash -> nat)
    requires Inv(p, c, H) && Sound(p, H) && Commits(r.block, H) && !IsHandled(p, c, r)
    ensures (var (c', outcome, _) := Step(p, c, r, H);
             if IsChecked(p, c, r) then outcome == Dropped && c' == c.(blocks := Checked(c, Raised(c, r.block)))
             else if r.filterReady && r.block.prevBlock !in c.blocks
                     && (r.block.totalTx > 0 || (r.block.timestamp + 597600) % 0x1_0000_0000 <= p.earliestKeyTime)
                     && (r.block.timestamp + 604800) % 0x1_0000_0000 >= r.now
             then outcome == Kept(r.block) && c'.blocks == c.blocks && c'.tip == c.tip
                  && Get(c'.orphans, r.block.prevBlock) == Some(r.block)
             else outcome == Dropped && c' == c)
  {
    HeightsLink(p, c.blocks, H);
    SelfHash(r.block, H);
    if IsChecked(p, c, r) {
      UnhandledReceive(p, c, r, H);
    } else {
      UncheckedReceive(p, c, r, H);
    }
    StepUnfold(p, c, r, H);
    hide Pruned, Passes, Inv, Receive, Step;
  }

  lemma NotTooNew(p: Params, b: Block)
    ensures IsTooNew(p, b) <==> !(b.totalTx > 0 || (b.timestamp + 597600) % 0x1_0000_0000 <= p.earliestKeyTime)
  {
  }

  lemma ReceiveUnfold(p: Params, c: Chain, r: Relay, H: Hash -> nat)
    requires Inv(p, c, H) && Sound(p, H) && Commits(r.block, H) && AllLinked(c.blocks)
    ensures IsTooNew(p, r.block) || !r.filterReady ==> Receive(p, c, r, H) == (c, Dropped)
    ensures !IsTooNew(p, r.block) && r.filterReady && r.block.prevBlock !in c.blocks ==>
              Receive(p, c, r, H) == if (r.block.timestamp + 604800) % 0x1_0000_0000 < r.now then (c, Dropped)
                                     else (c.(orphans := c.orphans[r.block.prevBlock := r.block]), Kept(r.block))
  {
    if r.block.prevBlock in c.blocks {
      InsertionLinks(p, c, Raised(c, r.block), H);
    }
    hide Pruned, Inv, Place, Verified, TrueHeights, Linked, AllLinked, Sound, IsTooNew;
  }

  lemma UncheckedReceive(p: Params, c: Chain, r: Relay, H: Hash -> nat)
    requires Inv(p, c, H) && Sound(p, H) && Commits(r.block, H) && !IsChecked(p, c, r)
    ensures (var (mid, outcome) := Receive(p, c, r, H);
             if r.filterReady && r.block.prevBlock !in c.blocks
                && (r.block.totalTx > 0 || (r.block.timestamp + 597600) % 0x1_0000_0000 <= p.earliestKeyTime)
                && (r.block.timestamp + 604800) % 0x1_0000_0000 >= r.now
             then outcome == Kept(r.block) && mid == c.(orphans := c.orphans[r.block.prevBlock := r.block])
             else outcome == Dropped && mid == c)
  {
    HeightsLink(p, c.blocks, H);
    hide Pruned, Inv, Receive, IsTooNew, Verified, Sound, Commits, Keyed, AllLinked, Linked, TrueHeights;
    NotTooNew(p, r.block);
    ReceiveUnfold(p, c, r, H);
  }

  lemma UnverifiedReceive(p: Params, c: Chain, r: Relay, b: Block, H: Hash -> nat)
    requires Inv(p, c, H) && Sound(p, H) && Commits(r.block, H) && AllLinked(c.blocks)
    requires !IsTooNew(p, r.block) && r.filterReady && r.block.prevBlock in c.blocks
    requires b == Raised(c, r.block) && !Verified(p, c.blocks, b)
    ensures Receive(p, c, r, H) == (c.(blocks := Pruned(c.blocks, b)), Dropped)
  {
    InsertionLinks(p, c, b, H);
    hide Pruned, Inv, Place, Verified, TrueHeights, Linked, AllLinked, Sound, IsTooNew;
  }

  lemma UnhandledReceive(p: Params, c: Chain, r: Relay, H: Hash -> nat)
    requires Inv(p, c, H) && Sound(p, H) && Commits(r.block, H)
    requires IsChecked(p, c, r) && !Passes(p, c, Raised(c, r.block))
    ensures Receive(p, c, r, H) == (c.(blocks := Checked(c, Raised(c, r.block))), Dropped)
  {
    HeightsLink(p, c.blocks, H);
    hide Pruned, Passes, Inv, IsTooNew, Receive, Verified, Sound, Commits, Linked, TrueHeights, Keyed;
    NotTooNew(p, r.block);
    var b := Raised(c, r.block);
    PassesIsVerified(p, c, b, H);
    UnverifiedReceive(p, c, r, b, H);
  }

  lemma SelfHash(b: Block, H: Hash -> nat)
    requires Commits(b, H)
    ensures b.prevBlock != b.blockHash
  {
  }

  /** So on every stored chain a checkpoint's height belongs to its hash. */
  lemma CheckpointsHold(p: Params, c: Chain, H: Hash -> nat, h: Hash, i: nat)
    requires Inv(p, c, H) && Sound(p, H) && h in c.blocks && i < |p.checkpoints| && p.checkpoints[i].height == c.blocks[h].height
    ensures h == p.checkpoints[i].blockHash
  {
    CheckpointAtMeans(p.checkpoints, c.blocks[h].height);
  }

  // ----- the tip

  /** The tip gives way to another block if and only if the relayed block is handled, higher than the tip and
      either right on it, or a new fork block above the last checkpoint that leaves no gap, or the peer has
      nothing more to send; and then it gives way to that block. */
  lemma TipMovesExactly(p: Params, c: Chain, r: Relay, H: Hash -> nat)
    requires Inv(p, c, H) && Sound(p, H) && Commits(r.block, H) && !Step(p, c, r, H).1.Failed?
    ensures var tip := Step(p, c, r, H).0.tip;
            && (tip.blockHash != c.tip.blockHash <==>
                  && IsHandled(p, c, r) && c.blocks[r.block.prevBlock].height >= c.tip.height
                  && (|| r.block.prevBlock == c.tip.blockHash
                      || (&& r.block.blockHash !in c.blocks
                          && c.blocks[r.block.prevBlock].height >= p.checkpoints[|p.checkpoints| - 1].height
                          && (c.blocks[r.block.prevBlock].height == c.tip.height || c.tip.height >= r.peerLast))))
            && (tip.blockHash != c.tip.blockHash ==> tip == Raised(c, r.block))
  {
    HeightsLink(p, c.blocks, H);
    if IsHandled(p, c, r) {
      TrueHeight(p, c, Raised(c, r.block), H);
      TipAtHeight(p, c, Raised(c, r.block), H);
      HandledExactly(p, c, r, H);
    } else {
      UnhandledExactly(p, c, r, H);
    }
    hide Pruned, Passes, Inv, Step;
  }

  /** After a step that handles a block the tip is at least as high as it, unless the block has to wait, is on an
      old fork, or is a stored checkpoint right above the tip. */
  lemma TipReaches(p: Params, c: Chain, r: Relay, H: Hash -> nat)
    requires Inv(p, c, H) && Sound(p, H) && Commits(r.block, H) && !Step(p, c, r, H).1.Failed?
    requires IsHandled(p, c, r) && !MustWait(c, r) && !IsOldFork(p, c, r)
    ensures var c' := Step(p, c, r, H).0;
            && r.block.blockHash in c'.blocks && c'.blocks[r.block.blockHash] == Raised(c, r.block)
            && (|| c'.tip.height >= H(r.block.blockHash)
                || (IsCheckpoint(p, r.block.blockHash) && r.block.blockHash in c.blocks && H(r.block.blockHash) == c.tip.height + 1))
  {
    HeightsLink(p, c.blocks, H);
    TrueHeight(p, c, Raised(c, r.block), H);
    HandledExactly(p, c, r, H);
    if r.block.blockHash in c.blocks {
      StoredHeights(p, c, r.block.blockHash, H);
    }
    hide Pruned, Passes, Inv, Step;
  }

  /** A stored block is at most as high as the tip, or a checkpoint. */
  lemma StoredHeights(p: Params, c: Chain, h: Hash, H: Hash -> nat)
    requires Inv(p, c, H) && h in c.blocks
    ensures H(h) <= c.tip.height || IsCheckpoint(p, h)
    ensures c.blocks[h].prevBlock != 0 ==> H(h) <= c.tip.height || (H(h) == c.tip.height + 1 && IsCheckpoint(p, h))
  {
  }

  /** Relays of blocks in a row, the first on the tip, each of which passes where it arrives. */
  ghost predicate InRow(p: Params, c: Chain, rs: seq<Relay>, H: Hash -> nat)
    requires Inv(p, c, H) && Sound(p, H) && forall i :: 0 <= i < |rs| ==> Commits(rs[i].block, H)
    decreases |rs|
  {
    rs != [] ==>
      && rs[0].block.prevBlock == c.tip.blockHash && IsHandled(p, c, rs[0])
      && (var (c', outcome, _) := Step(p, c, rs[0], H);
          StepKeeps(p, c, rs[0], H);
          !outcome.Failed? ==> InRow(p, c', rs[1..], H))
  }

  lemma TipExtends(p: Params, c: Chain, r: Relay, H: Hash -> nat)
    requires Inv(p, c, H) && Sound(p, H) && Commits(r.block, H)
    requires r.block.prevBlock == c.tip.blockHash && IsHandled(p, c, r)
    ensures var (c', outcome, _) := Step(p, c, r, H);
            && outcome.Kept? && Inv(p, c', H)
            && c'.tip == Raised(c, r.block) && c'.tip.height == c.tip.height + 1 && c'.tip.blockHash == r.block.blockHash
  {
    HeightsLink(p, c.blocks, H);
    TrueHeight(p, c, Raised(c, r.block), H);
    TipAtHeight(p, c, Raised(c, r.block), H);
    HandledStep(p, c, r, H);
    StepUnfold(p, c, r, H);
    StepKeeps(p, c, r, H);
    InsertionLinks(p, c, Raised(c, r.block), H);
    hide Pruned, Passes, Inv, Step, Receive;
  }

  lemma RowFirst(p: Params, c: Chain, rs: seq<Relay>, H: Hash -> nat)
    requires Inv(p, c, H) && Sound(p, H) && rs != [] && forall i :: 0 <= i < |rs| ==> Commits(rs[i].block, H)
    requires InRow(p, c, rs, H)
    ensures (var (c', outcome, _) := Step(p, c, rs[0], H);
             && rs[0].block.prevBlock == c.tip.blockHash && IsHandled(p, c, rs[0])
             && (outcome.Failed? || (Inv(p, c', H) && InRow(p, c', rs[1..], H) && Run(p, c, rs, H) == Run(p, c', rs[1..], H))))
  {
    hide Inv, Step, IsHandled, Sound, Commits;
    StepKeeps(p, c, rs[0], H);
  }

  lemma RunOfNone(p: Params, c: Chain, H: Hash -> nat)
    requires Inv(p, c, H) && Sound(p, H)
    ensures Run(p, c, [], H) == (c, false)
  {
    hide Inv, Sound;
  }

  /** They all become the tip, one after another: `n` blocks in a row end at the last of them, `n` heights up. */
  lemma {:induction false} RowExtends(p: Params, c: Chain, rs: seq<Relay>, H: Hash -> nat)
    requires Inv(p, c, H) && Sound(p, H) && forall i :: 0 <= i < |rs| ==> Commits(rs[i].block, H)
    requires InRow(p, c, rs, H)
    ensures var (c', stopped) := Run(p, c, rs, H);
            && !stopped && c'.tip.height == c.tip.height + |rs|
            && (rs != [] ==> c'.tip.blockHash == rs[|rs| - 1].block.blockHash)
    decreases |rs|
  {
    hide Inv, Step, IsHandled, Sound, Commits, InRow, Run;
    RunOfNone(p, c, H);
    if rs != [] {
      RowFirst(p, c, rs, H);
      TipExtends(p, c, rs[0], H);
      var mid := Step(p, c, rs[0], H).0;
      RowExtends(p, mid, rs[1..], H);
      RunOfNone(p, mid, H);
    }
  }

  // ----- orphans

  /** A block that passes and is kept hands back the orphan that waits for it; whatever is handed back waited for
      the block and waits no more; other orphans go on waiting. */
  lemma OrphanIsHandedBack(p: Params, c: Chain, r: Relay, H: Hash -> nat)
    requires Inv(p, c, H) && Sound(p, H) && Commits(r.block, H)
    ensures var (c', outcome, next) := Step(p, c, r, H);
            && (IsHandled(p, c, r) && outcome.Kept? ==> next == Get(c.orphans, r.block.blockHash))
            && (next.Some? ==> r.block.blockHash !in c'.orphans && next == Get(c.orphans, r.block.blockHash))
            && forall h :: h != r.block.blockHash && h != r.block.prevBlock ==> Get(c'.orphans, h) == Get(c.orphans, h)
  {
    SelfHash(r.block, H);
    StepUnfold(p, c, r, H);
    ReceivedOrphans(p, c, r, H);
    if IsHandled(p, c, r) {
      HeightsLink(p, c.blocks, H);
      TrueHeight(p, c, Raised(c, r.block), H);
    }
    hide Inv, Step, Receive, Sound, Commits, IsHandled, AllLinked, Get;
    var (mid, outcome) := Receive(p, c, r, H);
    if outcome.Kept? {
      Removed(mid.orphans, outcome.block.blockHash);
    }
  }

  lemma Removed(orphans: BlockSet, x: Hash)
    ensures forall h :: Get(orphans - {x}, h) == if h == x then None else Get(orphans, h)
  {
  }

  lemma ReceivedOrphans(p: Params, c: Chain, r: Relay, H: Hash -> nat)
    requires Inv(p, c, H) && Sound(p, H) && Commits(r.block, H)
    ensures var (mid, outcome) := Receive(p, c, r, H);
            && (forall h :: h != r.block.prevBlock ==> Get(mid.orphans, h) == Get(c.orphans, h))
            && (outcome.Kept? ==> outcome.block.blockHash == r.block.blockHash)
            && (IsHandled(p, c, r) && outcome.Kept? ==> outcome.block == Raised(c, r.block))
  {
    HeightsLink(p, c.blocks, H);
    if r.block.prevBlock in c.blocks {
      InsertionLinks(p, c, Raised(c, r.block), H);
      PassesIsVerified(p, c, Raised(c, r.block), H);
    }
    hide Pruned, Passes, Inv, Verified, DownTo, Join;
  }

  // ----- what is stored

  /** Every block that a step stores was handled, and nothing but pruning takes a block away. */
  lemma StoredWasHandled(p: Params, c: Chain, r: Relay, H: Hash -> nat)
    requires Inv(p, c, H) && Sound(p, H) && Commits(r.block, H) && !Step(p, c, r, H).1.Failed?
    ensures var c' := Step(p, c, r, H).0;
            && (forall h :: h in c'.blocks ==>
                  || (h in c.blocks && c'.blocks[h] == c.blocks[h])
                  || (h == r.block.blockHash && IsHandled(p, c, r) && c'.blocks[h] == Raised(c, r.block)))
            && (forall h :: h in c.blocks && h !in c'.blocks ==>
                  && IsChecked(p, c, r) && c.blocks[h].height % DIFFICULTY_INTERVAL != 0
                  && c.blocks[h].height + DIFFICULTY_INTERVAL <= c.blocks[r.block.prevBlock].height)
  {
    HeightsLink(p, c.blocks, H);
    if IsChecked(p, c, r) {
      InsertionLinks(p, c, Raised(c, r.block), H);
      PruningKeeps(p, c, Raised(c, r.block), H);
    }
    if IsHandled(p, c, r) {
      HandledExactly(p, c, r, H);
    } else {
      UnhandledExactly(p, c, r, H);
    }
    hide Pruned, Passes, Inv, Step;
  }

  /** Pruning frees exactly the ancestors at a distance of more than 2016 that are at no transition. */
  lemma PrunedExactly(blocks: BlockSet, b: Block, h: Hash)
    requires AllLinked(blocks) && Keyed(blocks) && Linked(blocks, b) && h in blocks
    ensures h !in Pruned(blocks, b) <==>
              && b.height % DIFFICULTY_INTERVAL == 0 && blocks[h].height % DIFFICULTY_INTERVAL != 0
              && exists n: nat :: n > DIFFICULTY_INTERVAL && Ancestor(blocks, b, n) == Some(blocks[h])
  {
    hide Ancestor, Stale;
    var t := TransitionBlock(blocks, b);
    if t.Some? {
      AncestorIsStored(blocks, b, DIFFICULTY_INTERVAL);
    }
    if exists n: nat :: n > DIFFICULTY_INTERVAL && Ancestor(blocks, b, n) == Some(blocks[h]) {
      var n: nat :| n > DIFFICULTY_INTERVAL && Ancestor(blocks, b, n) == Some(blocks[h]);
      AncestorPrefix(blocks, b, DIFFICULTY_INTERVAL, n);
      AncestorSum(blocks, b, DIFFICULTY_INTERVAL, n - DIFFICULTY_INTERVAL);
      StaleExactly(blocks, t.value, h);
      assert Ancestor(blocks, t.value, n - DIFFICULTY_INTERVAL) == Some(blocks[h]);
    }
    if h !in Pruned(blocks, b) {
      StaleExactly(blocks, t.value, h);
      var m: nat :| m > 0 && Ancestor(blocks, t.value, m) == Some(blocks[h]);
      AncestorSum(blocks, b, DIFFICULTY_INTERVAL, m);
    }
  }

  ghost predicate IsBelow(blocks: BlockSet, t: Block, x: Block) {
    exists m: nat :: m > 0 && Ancestor(blocks, t, m) == Some(x)
  }

  lemma BelowBoth(blocks: BlockSet, t: Block, x: Block)
    requires t.prevBlock in blocks
    ensures IsBelow(blocks, t, x) <==> x == blocks[t.prevBlock] || IsBelow(blocks, blocks[t.prevBlock], x)
  {
    var q := blocks[t.prevBlock];
    assert Ancestor(blocks, q, 0) == Some(q);
    assert Ancestor(blocks, t, 1) == Ancestor(blocks, q, 0);
    if IsBelow(blocks, q, x) {
      var m: nat :| m > 0 && Ancestor(blocks, q, m) == Some(x);
      assert Ancestor(blocks, t, m + 1) == Some(x);
    }
    if IsBelow(blocks, t, x) && x != q {
      var m: nat :| m > 0 && Ancestor(blocks, t, m) == Some(x);
      assert Ancestor(blocks, q, m - 1) == Some(x);
      assert m - 1 > 0;
    }
  }

  lemma {:induction false} StaleExactly(blocks: BlockSet, t: Block, h: Hash)
    requires AllLinked(blocks) && Keyed(blocks) && Linked(blocks, t) && h in blocks
    ensures h in Stale(blocks, t.prevBlock) <==>
              && blocks[h].height % DIFFICULTY_INTERVAL != 0
              && IsBelow(blocks, t, blocks[h])
    decreases if t.prevBlock in blocks then blocks[t.prevBlock].height + 1 else 0
  {
    if t.prevBlock in blocks {
      BelowBoth(blocks, t, blocks[h]);
      StaleExactly(blocks, blocks[t.prevBlock], h);
    }
  }
}

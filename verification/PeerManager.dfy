/** The peer manager of bitcoin/BRPeerManager.c, as far as it keeps the block chain. */
module PeerManager {
  import opened Wrappers
  import opened Blocks
  import opened Retarget
  import opened Transactions
  import opened WalletState
  import opened WalletOrder
  import opened WalletLedger
  import opened Difficulty
  import opened BlockChain
  import opened ChainTheorems
  import opened Reorganisation

  // ----- saved blocks

  /** A block that was saved with its true height. */
  ghost predicate IsSavable(p: Params, b: Block, H: Hash -> nat) {
    && Commits(b, H) && b.height == H(b.blockHash) && AgreesWithCheckpoint(p, b)
    && (b.prevBlock == 0 ==> IsCheckpoint(p, b.blockHash))
  }

  ghost predicate AllSavable(p: Params, orphans: BlockSet, H: Hash -> nat) {
    forall h :: h in orphans ==> orphans[h].prevBlock == h && IsSavable(p, orphans[h], H)
  }

  ghost predicate OnlyCheckpoints(p: Params, blocks: BlockSet, H: Hash -> nat) {
    TrueHeights(p, blocks, H) && forall h :: h in blocks ==> blocks[h].prevBlock == 0
  }

  predicate NoneAbove(blocks: BlockSet, tip: Block) {
    forall h :: h in blocks && blocks[h].prevBlock != 0 ==> blocks[h].height <= tip.height
  }

  lemma {:induction false} CheckpointFound(checkpoints: seq<Block>, i: nat)
    requires i < |checkpoints|
    requires forall j, k :: 0 <= j < k < |checkpoints| ==> checkpoints[j].height < checkpoints[k].height
    ensures CheckpointAt(checkpoints, checkpoints[i].height) == Some(checkpoints[i])
  {
    if i < |checkpoints| - 1 {
      CheckpointFound(checkpoints[..|checkpoints| - 1], i);
    }
  }

  lemma NoBlocks(p: Params, blocks: BlockSet, H: Hash -> nat)
    requires Sound(p, H) && blocks == map[]
    ensures OnlyCheckpoints(p, blocks, H) && |p.checkpoints| > 0
  {
  }

  lemma CheckpointsDiffer(p: Params, j: nat, i: nat, H: Hash -> nat)
    requires Sound(p, H) && j < i < |p.checkpoints|
    ensures p.checkpoints[j].blockHash != p.checkpoints[i].blockHash
  {
  }

  lemma AddCheckpoint(p: Params, blocks: BlockSet, i: nat, H: Hash -> nat)
    requires Sound(p, H) && i < |p.checkpoints| && OnlyCheckpoints(p, blocks, H)
    ensures OnlyCheckpoints(p, blocks[p.checkpoints[i].blockHash := p.checkpoints[i]], H)
  {
    CheckpointFound(p.checkpoints, i);
    assert IsCheckpoint(p, p.checkpoints[i].blockHash);
  }

  lemma CheckpointsAlone(p: Params, blocks: BlockSet, tip: Block, H: Hash -> nat)
    requires OnlyCheckpoints(p, blocks, H)
    ensures TrueHeights(p, blocks, H) && NoneAbove(blocks, tip)
  {
  }

  /** A saved block is added at the end of the chain. */
  lemma Appended(p: Params, blocks: BlockSet, tip: Block, block: Block, started: bool, H: Hash -> nat)
    requires TrueHeights(p, blocks, H) && NoneAbove(blocks, tip) && Stored(blocks, tip)
    requires IsSavable(p, block, H)
    requires if started then block.prevBlock == tip.blockHash else OnlyCheckpoints(p, blocks, H)
    ensures TrueHeights(p, blocks[block.blockHash := block], H)
    ensures NoneAbove(blocks[block.blockHash := block], block)
  {
    if started {
      assert block.height == tip.height + 1;
    }
  }

  lemma FollowsHigher(p: Params, orphans: BlockSet, h: Hash, H: Hash -> nat)
    requires AllSavable(p, orphans, H) && h in orphans && h != 0
    ensures IsSavable(p, orphans[h], H) && orphans[h].prevBlock == h && H(orphans[h].blockHash) == H(h) + 1
  {
  }

  lemma SavedIsNonzero(p: Params, b: Block, H: Hash -> nat)
    requires IsSavable(p, b, H)
    ensures b.blockHash != 0
  {
  }

  lemma LastOfAll(p: Params, blocks: BlockSet, tip: Block, H: Hash -> nat)
    requires TrueHeights(p, blocks, H) && NoneAbove(blocks, tip) && Stored(blocks, tip)
    ensures TipIsLast(p, blocks, tip)
  {
    forall h | h in blocks ensures blocks[h].prevBlock != tip.blockHash {
      assert Commits(blocks[h], H);
    }
  }

  lemma SavableWait(p: Params, orphans: BlockSet, H: Hash -> nat)
    requires AllSavable(p, orphans, H)
    ensures OrphansWait(orphans, H)
  {
  }

  // ----- resuming from saved blocks

  /** A checkpoint that lies more than a week before the time from which blocks are needed. */
  predicate IsOldEnough(p: Params, i: nat)
    requires i < |p.checkpoints|
  {
    (p.checkpoints[i].timestamp + ONE_WEEK) % TWO_32 < p.earliestKeyTime
  }

  /** Where syncing starts without saved blocks: at the last checkpoint old enough, or the first if none is. */
  ghost predicate IsStart(p: Params, b: Block, n: nat)
    requires n <= |p.checkpoints|
  {
    exists i :: 0 <= i < n && b == p.checkpoints[i] && (i == 0 || IsOldEnough(p, i)) && forall j :: i < j < n ==> !IsOldEnough(p, j)
  }

  /** Saved blocks by predecessor; of several with the same one the last. */
  ghost predicate IsFiled(saved: seq<Block>, orphans: BlockSet) {
    && (forall i :: 0 <= i < |saved| ==> saved[i].prevBlock in orphans)
    && forall h :: h in orphans ==>
         exists i :: 0 <= i < |saved| && saved[i] == orphans[h] && saved[i].prevBlock == h
                     && forall j :: i < j < |saved| ==> saved[j].prevBlock != h
  }

  /** Blocks in a row, each the one filed under the one before it. */
  predicate IsRow(orphans: BlockSet, row: seq<Block>) {
    forall k :: 0 <= k < |row| - 1 ==> row[k].blockHash in orphans && orphans[row[k].blockHash] == row[k + 1]
  }

  function Predecessors(row: seq<Block>): set<Hash> { set k | 0 <= k < |row| :: row[k].prevBlock }

  function HashesOf(row: seq<Block>): set<Hash> { set k | 0 <= k < |row| :: row[k].blockHash }

  function CheckpointHashes(p: Params): set<Hash> { HashesOf(p.checkpoints) }

  /** The chain of a new manager: the checkpoints and, from the highest saved block at a transition on, all saved blocks
      in a row, the last of them the tip. */
  ghost predicate IsResumed(p: Params, saved: seq<Block>, filed: BlockSet, row: seq<Block>, c: Chain) {
    && IsFiled(saved, filed) && IsRow(filed, row)
    && c.blocks.Keys == CheckpointHashes(p) + HashesOf(row)
    && c.orphans == filed - Predecessors(row)
    && if row == [] then
         IsStart(p, c.tip, |p.checkpoints|) && forall i :: 0 <= i < |saved| ==> saved[i].height % DIFFICULTY_INTERVAL != 0
       else
         && c.tip == row[|row| - 1] && c.tip.blockHash !in filed
         && row[0] in saved && row[0].height % DIFFICULTY_INTERVAL == 0
         && forall i :: 0 <= i < |saved| && saved[i].height % DIFFICULTY_INTERVAL == 0 ==> saved[i].height <= row[0].height
  }

  lemma HashesAppend(row: seq<Block>, b: Block)
    ensures HashesOf(row + [b]) == HashesOf(row) + {b.blockHash}
    ensures Predecessors(row + [b]) == Predecessors(row) + {b.prevBlock}
  {
    var all := row + [b];
    assert all[|row|] == b;
    forall h | h in HashesOf(row) ensures h in HashesOf(all) {
      var k :| 0 <= k < |row| && row[k].blockHash == h;
      assert all[k].blockHash == h;
    }
    forall h | h in Predecessors(row) ensures h in Predecessors(all) {
      var k :| 0 <= k < |row| && row[k].prevBlock == h;
      assert all[k].prevBlock == h;
    }
  }

  lemma NoneInRow()
    ensures HashesOf([]) == {} && Predecessors([]) == {}
  {
  }

  /** One more checkpoint is the start if it is old enough, or the only one. */
  lemma StartStep(p: Params, b: Block, i: nat)
    requires i < |p.checkpoints| && (i > 0 ==> IsStart(p, b, i))
    ensures IsStart(p, if i == 0 || IsOldEnough(p, i) then p.checkpoints[i] else b, i + 1)
  {
  }

  lemma CheckpointAdded(p: Params, blocks: BlockSet, start: Block, i: nat, H: Hash -> nat)
    requires Sound(p, H) && i < |p.checkpoints| && OnlyCheckpoints(p, blocks, H)
    requires blocks.Keys == HashesOf(p.checkpoints[..i])
    requires i > 0 ==> Stored(blocks, start) && IsStart(p, start, i)
    ensures var b := p.checkpoints[i];
            var added := blocks[b.blockHash := b];
            && OnlyCheckpoints(p, added, H) && added.Keys == HashesOf(p.checkpoints[..i + 1])
            && Stored(added, b) && (i > 0 ==> Stored(added, start))
            && IsStart(p, if i == 0 || IsOldEnough(p, i) then b else start, i + 1)
  {
    hide OnlyCheckpoints, Sound, IsStart, HashesOf, Predecessors, IsOldEnough, Stored;
    AddCheckpoint(p, blocks, i, H);
    HashesAppend(p.checkpoints[..i], p.checkpoints[i]);
    assert p.checkpoints[..i + 1] == p.checkpoints[..i] + [p.checkpoints[i]];
    StartStep(p, start, i);
    StoredStay(blocks, start, p.checkpoints[i]);
    if i > 0 {
      StartDiffers(p, start, i, H);
    }
  }

  lemma StoredStay(blocks: BlockSet, start: Block, b: Block)
    ensures var added := blocks[b.blockHash := b];
            Stored(added, b) && (Stored(blocks, start) && start.blockHash != b.blockHash ==> Stored(added, start))
  {
  }

  lemma StartDiffers(p: Params, start: Block, i: nat, H: Hash -> nat)
    requires Sound(p, H) && 0 < i < |p.checkpoints| && IsStart(p, start, i)
    ensures start.blockHash != p.checkpoints[i].blockHash
  {
    hide Sound;
    var j :| 0 <= j < i && start == p.checkpoints[j];
    CheckpointsDiffer(p, j, i, H);
  }

  lemma NothingFiled()
    ensures IsFiled([], map[])
  {
  }

  lemma FiledStep(saved: seq<Block>, orphans: BlockSet, b: Block)
    requires IsFiled(saved, orphans)
    ensures IsFiled(saved + [b], orphans[b.prevBlock := b])
  {
    var all, more := saved + [b], orphans[b.prevBlock := b];
    forall h | h in more
      ensures exists i :: 0 <= i < |all| && all[i] == more[h] && all[i].prevBlock == h
                          && forall j :: i < j < |all| ==> all[j].prevBlock != h
    {
      if h == b.prevBlock {
        assert all[|saved|] == more[h];
      } else {
        var i :| 0 <= i < |saved| && saved[i] == orphans[h] && saved[i].prevBlock == h
                 && forall j :: i < j < |saved| ==> saved[j].prevBlock != h;
        assert all[i] == more[h];
      }
    }
  }

  /** No block of a row has the last one as its predecessor. */
  ghost predicate IsLower(row: seq<Block>, H: Hash -> nat) {
    row != [] ==>
      && row[|row| - 1].blockHash != 0
      && forall k :: 0 <= k < |row| ==> row[k].prevBlock == 0 || H(row[k].prevBlock) < H(row[|row| - 1].blockHash)
  }

  lemma RowStep(p: Params, orphans: BlockSet, row: seq<Block>, b: Block, H: Hash -> nat)
    requires IsRow(orphans, row) && IsLower(row, H) && IsSavable(p, b, H)
    requires row != [] ==> Get(orphans, row[|row| - 1].blockHash) == Some(b) && b.prevBlock == row[|row| - 1].blockHash
    ensures IsRow(orphans, row + [b]) && IsLower(row + [b], H)
    ensures HashesOf(row + [b]) == HashesOf(row) + {b.blockHash}
    ensures Predecessors(row + [b]) == Predecessors(row) + {b.prevBlock}
    ensures b.blockHash !in Predecessors(row + [b])
  {
    HashesAppend(row, b);
    RowGrows(orphans, row, b);
    LowerGrows(p, row, b, H);
    hide HashesOf, Predecessors, IsRow, IsLower, IsSavable;
  }

  lemma RowGrows(orphans: BlockSet, row: seq<Block>, b: Block)
    requires IsRow(orphans, row)
    requires row != [] ==> Get(orphans, row[|row| - 1].blockHash) == Some(b)
    ensures IsRow(orphans, row + [b])
  {
    var all := row + [b];
    forall k | 0 <= k < |all| - 1 ensures all[k].blockHash in orphans && orphans[all[k].blockHash] == all[k + 1] {
      assert all[k] == row[k];
    }
  }

  lemma LowerGrows(p: Params, row: seq<Block>, b: Block, H: Hash -> nat)
    requires IsLower(row, H) && IsSavable(p, b, H)
    requires row != [] ==> b.prevBlock == row[|row| - 1].blockHash
    ensures IsLower(row + [b], H) && b.blockHash !in Predecessors(row + [b])
  {
    var all, n := row + [b], |row|;
    assert all[n] == b && b.blockHash != 0 && (b.prevBlock != 0 ==> H(b.prevBlock) < H(b.blockHash));
    assert n > 0 ==> row[n - 1].blockHash == b.prevBlock;
    forall k | 0 <= k < |all| ensures all[k].prevBlock == 0 || H(all[k].prevBlock) < H(b.blockHash) {
      if k < n {
        assert all[k] == row[k];
      }
    }
  }

  lemma Resumes(p: Params, saved: seq<Block>, filed: BlockSet, first: Option<Block>, row: seq<Block>, c: Chain)
    requires IsFiled(saved, filed) && IsRow(filed, row) && (row == [] <==> first.None?)
    requires c.blocks.Keys == CheckpointHashes(p) + HashesOf(row) && c.orphans == filed - Predecessors(row)
    requires first.None? <==> forall i :: 0 <= i < |saved| ==> saved[i].height % DIFFICULTY_INTERVAL != 0
    requires first.Some? ==> first.value in saved && first.value.height % DIFFICULTY_INTERVAL == 0
                             && forall i :: 0 <= i < |saved| && saved[i].height % DIFFICULTY_INTERVAL == 0 ==> saved[i].height <= first.value.height
    requires if row == [] then IsStart(p, c.tip, |p.checkpoints|)
             else first == Some(row[0]) && c.tip == row[|row| - 1] && c.tip.blockHash !in filed
    ensures IsResumed(p, saved, filed, row, c)
  {
    hide IsFiled, IsStart, IsRow;
  }

  // ----- blocks handed to the persistent store

  /** The end of `_peerRelayedBlock`: up to `saveCount` blocks from `block` down, cut so that they
      start at a difficulty transition.  The source's check of that, `ok`, never fails; the cut is
      the lowest transition among the blocks collected. */
  method BlocksToSave(blocks: BlockSet, block: Block, saveCount: nat) returns (saved: seq<Block>, ok: bool)
    requires AllLinked(blocks) && Linked(blocks, block)
    ensures ok && |saved| <= saveCount
    ensures forall k :: 0 <= k < |saved| ==> Ancestor(blocks, block, k) == Some(saved[k])
    ensures saved != [] ==> saved[|saved| - 1].height % DIFFICULTY_INTERVAL == 0
    ensures forall k: nat :: |saved| <= k < saveCount && Ancestor(blocks, block, k).Some? ==>
              Ancestor(blocks, block, k).value.height % DIFFICULTY_INTERVAL != 0
  {
    hide Ancestor;
    saved := [];
    var b := Some(block);
    AncestorNone(blocks, block);
    while b.Some? && |saved| < saveCount
      invariant |saved| <= saveCount && b == Ancestor(blocks, block, |saved|)
      invariant forall k :: 0 <= k < |saved| ==>
                  Ancestor(blocks, block, k) == Some(saved[k]) && saved[k].height == block.height - k
      decreases saveCount - |saved|
    {
      AncestorHeight(blocks, block, |saved|);
      AncestorStep(blocks, block, |saved|);
      saved := saved + [b.value];
      b := Get(blocks, b.value.prevBlock);
    }
    ghost var all := saved;
    forall k: nat | |all| <= k < saveCount ensures Ancestor(blocks, block, k).None? {
      AncestorMissing(blocks, block, |all|, k);
    }
    var i := |saved|;
    var j := if i > 0 then saved[i - 1].height % DIFFICULTY_INTERVAL else 0;
    if j > 0 {
      i := if i > DIFFICULTY_INTERVAL - j then i - (DIFFICULTY_INTERVAL - j) else 0;
    }
    forall k | i <= k < |all| ensures all[k].height % DIFFICULTY_INTERVAL != 0 {
      assert all[k].height == all[|all| - 1].height + (|all| - 1 - k);
      BelowTransition(all[|all| - 1].height, |all| - 1 - k);
    }
    if j > 0 && i > 0 {
      AtTransition(all[|all| - 1].height);
    }
    ok := i == 0 || saved[i - 1].height % DIFFICULTY_INTERVAL == 0;
    saved := saved[..i];
  }

  /** Between a height that is no transition and the next transition there is none. */
  lemma BelowTransition(height: nat, d: nat)
    requires 0 < height % DIFFICULTY_INTERVAL && height % DIFFICULTY_INTERVAL + d < DIFFICULTY_INTERVAL
    ensures (height + d) % DIFFICULTY_INTERVAL != 0
  {
  }

  lemma AtTransition(height: nat)
    ensures (height + (DIFFICULTY_INTERVAL - height % DIFFICULTY_INTERVAL)) % DIFFICULTY_INTERVAL == 0
  {
  }

  lemma AncestorNone(blocks: BlockSet, b: Block)
    ensures Ancestor(blocks, b, 0) == Some(b)
  {
  }

  // ----- what the wallet sees

  function AtTrueHeight(c: Chain, b: Block): Block {
    if b.prevBlock in c.blocks then b.(height := c.blocks[b.prevBlock].height + 1) else b
  }

  function TimeOf(c: Chain, b: Block): nat {
    if b.prevBlock in c.blocks then MeanTime(b, c.blocks[b.prevBlock]) else 0
  }

  /** The stored blocks once `b` has been verified. */
  ghost function Checked(p: Params, c: Chain, b: Block, H: Hash -> nat): BlockSet
    requires Inv(p, c, H)
  {
    HeightsLink(p, c.blocks, H);
    Pruned(c.blocks, AtTrueHeight(c, b))
  }

  /** How registered transactions change with the chain, from `blocks` with `tip`
      to `blocks'` with `tip'`: a block on the main chain puts its matches at its height and time, a
      reorganisation moves them to the new branch, and nothing else touches the wallet. */
  predicate WalletFollows(blocks: BlockSet, tip: Block, blocks': BlockSet, tip': Block, outcome: Outcome, block: Block, time: nat,
                          before: map<Hash, Tx>, after: map<Hash, Tx>, list: seq<Hash>) {
    if !outcome.Kept? || block.prevBlock !in blocks then after == before
    else if block.prevBlock == tip.blockHash then StampedList(before, after, list, block.matches, block.height, time)
    else if block.blockHash in blocks then
      var b := DownTo(blocks, tip, block.height);
      if b.Some? && b.value.blockHash == block.blockHash
      then StampedList(before, after, list, block.matches, block.height, time)
      else after == before
    else if tip'.blockHash != tip.blockHash then
      && AllLinked(blocks') && Linked(blocks', tip') && Stored(blocks', tip) && Stored(blocks', tip')
      && var (b, b2) := Join(blocks', tip', tip);
         && b.Some?
         && (b2.Some? ==> && tip'.height >= b.value.height
                          && Ancestor(blocks', tip', tip'.height - b.value.height).Some?
                          && Reorganised(blocks', tip', b.value, before, after, list))
         && (b2.None? ==> after == Unconfirmed(before, list, b.value.height))
    else after == before
  }

  /** How registered transactions change over a run: `ws` holds what is known of them before and after each relay. */
  ghost predicate WalletRun(p: Params, c: Chain, rs: seq<Relay>, ws: seq<map<Hash, Tx>>, list: seq<Hash>, H: Hash -> nat)
    requires Inv(p, c, H) && Sound(p, H) && forall i :: 0 <= i < |rs| ==> Commits(rs[i].block, H)
    decreases |rs|
  {
    && |ws| == |rs| + 1
    && (rs != [] ==>
          hide Inv, Step, WalletFollows;
          StepKeeps(p, c, rs[0], H);
          var (c', outcome, _) := Step(p, c, rs[0], H);
          && WalletFollows(Checked(p, c, rs[0].block, H), c.tip, c'.blocks, c'.tip, outcome,
                           AtTrueHeight(c, rs[0].block), TimeOf(c, rs[0].block), ws[0], ws[1], list)
          && (outcome.Failed? || WalletRun(p, c', rs[1..], ws[1..], list, H)))
  }

  lemma WalletRunStep(p: Params, c: Chain, rs: seq<Relay>, ws: seq<map<Hash, Tx>>, list: seq<Hash>, H: Hash -> nat)
    requires Inv(p, c, H) && Sound(p, H) && rs != [] && |ws| == |rs| + 1
    requires forall i :: 0 <= i < |rs| ==> Commits(rs[i].block, H)
    requires var (c', outcome, _) := Step(p, c, rs[0], H);
             && WalletFollows(Checked(p, c, rs[0].block, H), c.tip, c'.blocks, c'.tip, outcome,
                              AtTrueHeight(c, rs[0].block), TimeOf(c, rs[0].block), ws[0], ws[1], list)
             && (outcome.Failed? || (Inv(p, c', H) && WalletRun(p, c', rs[1..], ws[1..], list, H)))
    ensures WalletRun(p, c, rs, ws, list, H)
  {
    hide Inv, Step, WalletFollows;
  }

  lemma NothingFollows(p: Params, c: Chain, allTx: map<Hash, Tx>, list: seq<Hash>, H: Hash -> nat)
    requires Inv(p, c, H) && Sound(p, H)
    ensures WalletRun(p, c, [], [allTx], list, H)
  {
  }

  lemma UnconfirmedSame(allTx: map<Hash, Tx>, list: seq<Hash>, list': seq<Hash>)
    requires forall h :: h in list <==> h in list'
    ensures forall height: nat :: Unconfirmed(allTx, list, height) == Unconfirmed(allTx, list', height)
  {
  }

  lemma FollowsSame(blocks: BlockSet, tip: Block, blocks': BlockSet, tip': Block, outcome: Outcome, block: Block, time: nat,
                    before: map<Hash, Tx>, after: map<Hash, Tx>, list: seq<Hash>, list': seq<Hash>)
    requires WalletFollows(blocks, tip, blocks', tip', outcome, block, time, before, after, list)
    requires forall h :: h in list <==> h in list'
    ensures WalletFollows(blocks, tip, blocks', tip', outcome, block, time, before, after, list')
  {
    hide Join, Ancestor, DownTo, TxAfter;
    UnconfirmedSame(before, list, list');
  }

  lemma {:induction false} WalletRunSame(p: Params, c: Chain, rs: seq<Relay>, ws: seq<map<Hash, Tx>>, list: seq<Hash>, list': seq<Hash>,
                                         H: Hash -> nat)
    requires Inv(p, c, H) && Sound(p, H) && forall i :: 0 <= i < |rs| ==> Commits(rs[i].block, H)
    requires WalletRun(p, c, rs, ws, list, H) && forall h :: h in list <==> h in list'
    ensures WalletRun(p, c, rs, ws, list', H)
    decreases |rs|
  {
    hide Inv, Step, WalletFollows;
    if rs != [] {
      StepKeeps(p, c, rs[0], H);
      var (c', outcome, _) := Step(p, c, rs[0], H);
      FollowsSame(Checked(p, c, rs[0].block, H), c.tip, c'.blocks, c'.tip, outcome,
                  AtTrueHeight(c, rs[0].block), TimeOf(c, rs[0].block), ws[0], ws[1], list, list');
      if !outcome.Failed? {
        WalletRunSame(p, c', rs[1..], ws[1..], list, list', H);
      }
    }
  }

  lemma AddedIsStored(p: Params, blocks: BlockSet, tip: Block, block: Block, H: Hash -> nat)
    requires TrueHeights(p, blocks, H) && Sound(p, H) && Stored(blocks, tip)
    requires block.blockHash !in blocks && block.height == H(block.blockHash)
    ensures var added := blocks[block.blockHash := block];
            && Keyed(added) && Stored(added, tip) && Stored(added, block) && tip.blockHash != block.blockHash
            && forall h :: h in added ==> added[h].height <= TX_UNCONFIRMED
  {
  }

  lemma TipIsStored(p: Params, blocks: BlockSet, tip: Block, H: Hash -> nat)
    requires TrueHeights(p, blocks, H) && TipIsLast(p, blocks, tip)
    ensures Keyed(blocks) && Stored(blocks, tip)
  {
  }

  class Manager {
    const params: Params
    const wallet: Wallet
    var blocks: BlockSet
    var orphans: BlockSet
    var lastBlock: Block
    var estimatedHeight: nat

    function State(): Chain
      reads this
    {
      Chain(blocks, orphans, lastBlock, estimatedHeight)
    }

    // ----- creation

    /** The part of `BRPeerManagerNew` that builds the chain: checkpoints first, then the saved
        blocks that follow on the highest saved transition block. */
    constructor (params: Params, wallet: Wallet, saved: seq<Block>, ghost H: Hash -> nat)
      requires Sound(params, H) && forall i :: 0 <= i < |saved| ==> IsSavable(params, saved[i], H)
      ensures this.params == params && this.wallet == wallet
      ensures Inv(params, State(), H)
      ensures estimatedHeight == 0
      ensures exists filed, row :: IsResumed(params, saved, filed, row, State())
    {
      this.params, this.wallet := params, wallet;
      blocks, orphans, estimatedHeight := map[], map[], 0;
      lastBlock := params.checkpoints[0];
      new;
      Start(saved, H);
    }

    method Start(saved: seq<Block>, ghost H: Hash -> nat)
      requires Sound(params, H) && forall i :: 0 <= i < |saved| ==> IsSavable(params, saved[i], H)
      requires blocks == map[] && orphans == map[]
      modifies this`blocks, this`orphans, this`lastBlock
      ensures Inv(params, State(), H)
      ensures exists filed, row :: IsResumed(params, saved, filed, row, State())
    {
      hide Inv, Sound, IsFiled, IsStart, IsRow, AllSavable, OnlyCheckpoints, IsSavable, HashesOf, Predecessors, IsResumed, CheckpointHashes, Stored;
      AddCheckpoints(H);
      var block := CollectSaved(saved, H);
      ghost var filed := orphans;
      ghost var row := BuildChain(block, H);
      Resumes(params, saved, filed, block, row, State());
    }

    method AddCheckpoints(ghost H: Hash -> nat)
      requires Sound(params, H) && blocks == map[]
      modifies this`blocks, this`lastBlock
      ensures OnlyCheckpoints(params, blocks, H) && Stored(blocks, lastBlock)
      ensures blocks.Keys == CheckpointHashes(params) && IsStart(params, lastBlock, |params.checkpoints|)
    {
      hide OnlyCheckpoints, Sound, IsStart, HashesOf, Stored;
      NoBlocks(params, blocks, H);
      NoneInRow();
      assert params.checkpoints[..0] == [];
      for i := 0 to |params.checkpoints|
        invariant OnlyCheckpoints(params, blocks, H)
        invariant blocks.Keys == HashesOf(params.checkpoints[..i])
        invariant i > 0 ==> Stored(blocks, lastBlock) && IsStart(params, lastBlock, i)
      {
        var block := params.checkpoints[i];
        CheckpointAdded(params, blocks, lastBlock, i, H);
        blocks := blocks[block.blockHash := block];
        if i == 0 || (block.timestamp + ONE_WEEK) % TWO_32 < params.earliestKeyTime {
          lastBlock := block;
        }
      }
      assert params.checkpoints[..|params.checkpoints|] == params.checkpoints;
    }

    /** Files the saved blocks by predecessor and returns the highest one at a transition. */
    method CollectSaved(saved: seq<Block>, ghost H: Hash -> nat) returns (block: Option<Block>)
      requires orphans == map[] && forall i :: 0 <= i < |saved| ==> IsSavable(params, saved[i], H)
      modifies this`orphans
      ensures AllSavable(params, orphans, H) && (block.Some? ==> IsSavable(params, block.value, H))
      ensures block.None? <==> forall i :: 0 <= i < |saved| ==> saved[i].height % DIFFICULTY_INTERVAL != 0
      ensures block.Some? ==> block.value in saved && block.value.height % DIFFICULTY_INTERVAL == 0 && forall i :: 0 <= i < |saved| && saved[i].height % DIFFICULTY_INTERVAL == 0 ==>
                saved[i].height <= block.value.height
      ensures IsFiled(saved, orphans)
    {
      hide IsSavable, IsFiled;
      block := None;
      NothingFiled();
      assert saved[..0] == [];
      for i := 0 to |saved|
        invariant IsFiled(saved[..i], orphans)
        invariant AllSavable(params, orphans, H) && (block.Some? ==> IsSavable(params, block.value, H))
        invariant block.None? <==> forall k :: 0 <= k < i ==> saved[k].height % DIFFICULTY_INTERVAL != 0
        invariant block.Some? ==> block.value in saved && block.value.height % DIFFICULTY_INTERVAL == 0 && forall k :: 0 <= k < i && saved[k].height % DIFFICULTY_INTERVAL == 0 ==>
                    saved[k].height <= block.value.height
      {
        FiledStep(saved[..i], orphans, saved[i]);
        assert saved[..i + 1] == saved[..i] + [saved[i]];
        orphans := orphans[saved[i].prevBlock := saved[i]];
        if saved[i].height % DIFFICULTY_INTERVAL == 0 && (block.None? || saved[i].height > block.value.height) {
          block := Some(saved[i]);
        }
      }
      assert saved[..|saved|] == saved;
    }

    /** Moves saved blocks from the orphans to the chain for as long as one follows the last. */
    method BuildChain(first: Option<Block>, ghost H: Hash -> nat) returns (ghost row: seq<Block>)
      requires Sound(params, H) && OnlyCheckpoints(params, blocks, H) && Stored(blocks, lastBlock)
      requires AllSavable(params, orphans, H) && (first.Some? ==> IsSavable(params, first.value, H))
      modifies this`blocks, this`orphans, this`lastBlock
      ensures Inv(params, State(), H)
      ensures IsRow(old(orphans), row) && (row == [] <==> first.None?)
      ensures blocks.Keys == old(blocks).Keys + HashesOf(row) && orphans == old(orphans) - Predecessors(row)
      ensures if row == [] then lastBlock == old(lastBlock)
              else first == Some(row[0]) && lastBlock == row[|row| - 1] && lastBlock.blockHash !in old(orphans)
    {
      hide OnlyCheckpoints, TrueHeights, NoneAbove, IsSavable, HashesOf, Predecessors;
      CheckpointsAlone(params, blocks, lastBlock, H);
      NoneInRow();
      var block := first;
      row := [];
      while block.Some?
        invariant TrueHeights(params, blocks, H) && NoneAbove(blocks, lastBlock) && Stored(blocks, lastBlock)
        invariant row == [] ==> OnlyCheckpoints(params, blocks, H) && block == first && lastBlock == old(lastBlock)
        invariant row != [] ==> first == Some(row[0]) && lastBlock == row[|row| - 1]
        invariant row != [] ==> block == Get(old(orphans), lastBlock.blockHash)
        invariant IsRow(old(orphans), row) && IsLower(row, H)
        invariant blocks.Keys == old(blocks).Keys + HashesOf(row) && orphans == old(orphans) - Predecessors(row)
        invariant AllSavable(params, orphans, H)
        invariant block.Some? ==> IsSavable(params, block.value, H)
        invariant block.Some? && row != [] ==> block.value.prevBlock == lastBlock.blockHash
        decreases if block.Some? then BLOCK_UNKNOWN_HEIGHT - H(block.value.blockHash) else -1, row == []
      {
        Appended(params, blocks, lastBlock, block.value, row != [], H);
        RowStep(params, old(orphans), row, block.value, H);
        blocks := blocks[block.value.blockHash := block.value];
        lastBlock := block.value;
        orphans := orphans - {block.value.prevBlock};
        row := row + [block.value];
        block := Get(orphans, block.value.blockHash);
        SavedIsNonzero(params, lastBlock, H);
        if block.Some? {
          FollowsHigher(params, orphans, lastBlock.blockHash, H);
        }
      }
      LastOfAll(params, blocks, lastBlock, H);
      SavableWait(params, orphans, H);
    }

    // ----- verification

    /** The loop that frees blocks older than the previous transition. */
    method FreeOldBlocks(first: Block)
      requires AllLinked(blocks) && Keyed(blocks) && Stored(blocks, first)
      modifies this`blocks
      ensures blocks == old(blocks) - Stale(old(blocks), first.prevBlock)
    {
      ghost var all := blocks;
      ghost var freed: set<Hash> := {};
      var b, prevBlock := Some(first), first.prevBlock;
      while b.Some?
        invariant blocks == all - freed
        invariant freed + Stale(all, prevBlock) == Stale(all, first.prevBlock)
        invariant prevBlock in all ==> forall x :: x in freed ==> x in all && all[x].height > all[prevBlock].height
        invariant b.None? ==> prevBlock !in all
        decreases if prevBlock in all then all[prevBlock].height + 1 else 0, if b.Some? then 1 else 0
      {
        b := Get(blocks, prevBlock);
        if b.Some? {
          prevBlock := b.value.prevBlock;
          if b.value.height % DIFFICULTY_INTERVAL != 0 {
            blocks := blocks - {b.value.blockHash};
            freed := freed + {b.value.blockHash};
          }
        }
      }
    }

    /** `_BRPeerManagerVerifyBlock`. */
    method VerifyBlock(block: Block, prev: Block) returns (r: bool)
      requires AllLinked(blocks) && Keyed(blocks) && Linked(blocks, block) && Stored(blocks, prev)
      requires block.prevBlock == prev.blockHash && block.height == prev.height + 1
      modifies this`blocks
      ensures blocks == Pruned(old(blocks), block)
      ensures r <==> Verified(params, old(blocks), block)
    {
      hide Ancestor, Stale;
      r := true;
      if block.height % DIFFICULTY_INTERVAL == 0 {
        var b := WalkBack(block, blocks, DIFFICULTY_INTERVAL);
        if b.None? {
          r := false;
        } else {
          AncestorIsStored(blocks, block, DIFFICULTY_INTERVAL);
          FreeOldBlocks(b.value);
        }
      }
      if r && !params.verifyDifficulty(block, blocks) {
        r := false;
      }
      if r {
        var checkpoint := FindCheckpoint(block.height);
        if checkpoint.Some? && block.blockHash != checkpoint.value.blockHash {
          r := false;
        }
      }
    }

    /** The checkpoint at a height, looked up as in a set where later entries replace earlier. */
    method FindCheckpoint(height: nat) returns (c: Option<Block>)
      ensures c == CheckpointAt(params.checkpoints, height)
    {
      var i := |params.checkpoints|;
      assert params.checkpoints[..i] == params.checkpoints;
      while i > 0 && params.checkpoints[i - 1].height != height
        invariant 0 <= i <= |params.checkpoints|
        invariant CheckpointAt(params.checkpoints[..i], height) == CheckpointAt(params.checkpoints, height)
      {
        assert params.checkpoints[..i][..i - 1] == params.checkpoints[..i - 1];
        i := i - 1;
      }
      c := if i > 0 then Some(params.checkpoints[i - 1]) else None;
    }

    // ----- placing a verified block

    /** The walk that looks for a stored block on the main chain. */
    method WalkDownTo(height: nat) returns (b: Option<Block>)
      requires AllLinked(blocks) && Linked(blocks, lastBlock)
      ensures b == DownTo(blocks, lastBlock, height)
    {
      hide Ancestor;
      b := Some(lastBlock);
      ghost var n := 0;
      AncestorNone(blocks, lastBlock);
      while b.Some? && b.value.height > height
        invariant n > 0 ==> lastBlock.height >= height + n
        invariant b == Ancestor(blocks, lastBlock, n)
        invariant b.Some? ==> b.value.height == lastBlock.height - n && Linked(blocks, b.value)
        decreases if b.Some? then b.value.height + 1 else 0
      {
        AncestorStep(blocks, lastBlock, n);
        b := Get(blocks, b.value.prevBlock);
        n := n + 1;
      }
      if b.None? {
        AncestorMissing(blocks, lastBlock, n, lastBlock.height - height);
      }
    }

    /** Places a verified block in the chain; returns what became of it. */
    method PlaceBlock(block: Block, txTime: nat, peerLast: nat, now: int, ghost H: Hash -> nat, ghost rank: Hash -> nat)
        returns (outcome: Outcome)
      requires Inv(params, State(), H) && Sound(params, H)
      requires Commits(block, H) && block.height == H(block.blockHash) && block.prevBlock in blocks
      requires AllLinked(blocks) && Linked(blocks, block)
      requires AllLinked(blocks[block.blockHash := block]) && Linked(blocks[block.blockHash := block], block)
      requires Ledger(wallet) && Ranked(wallet.allTx, rank)
      modifies this`blocks, this`orphans, this`lastBlock
      modifies wallet`blockHeight, wallet`allTx, wallet`transactions, wallet`balance, wallet`totalSent, wallet`totalReceived,
               wallet`balanceHist, wallet`utxos, wallet`invalidTx, wallet`pendingTx, wallet`spentOutputs, wallet`usedPKH
      ensures (State(), outcome) == Place(params, old(State()), block, peerLast)
      ensures Ledger(wallet) && Ranked(wallet.allTx, rank)
      ensures forall h :: h in wallet.transactions <==> h in old(wallet.transactions)
      ensures WalletFollows(old(blocks), old(lastBlock), blocks, lastBlock, outcome, block, txTime,
                            old(wallet.allTx), wallet.allTx, old(wallet.transactions))
    {
      hide Ledger, Ranked, Reorganised, StampedList, IsAncestor, Ancestor, Join, TrueHeights, TipIsLast, DownTo;
      outcome := Kept(block);
      TipIsStored(params, blocks, lastBlock, H);
      if block.prevBlock == lastBlock.blockHash {
        blocks := blocks[block.blockHash := block];
        lastBlock := block;
        ConfirmMatches(wallet, block.matches, block.height, txTime, now, rank);
      } else if block.blockHash in blocks {
        var b := WalkDownTo(block.height);
        if b.None? {
          outcome := Failed;
          return;
        }
        if b.value.blockHash == block.blockHash {
          ConfirmMatches(wallet, block.matches, block.height, txTime, now, rank);
          if block.height == lastBlock.height {
            lastBlock := block;
          }
        }
        blocks := blocks[block.blockHash := block];
      } else if lastBlock.height < peerLast && block.height > lastBlock.height + 1 {
        orphans := orphans[block.prevBlock := block];
      } else if block.height <= params.checkpoints[|params.checkpoints| - 1].height {
        outcome := Dropped;
      } else {
        blocks := blocks[block.blockHash := block];
        if block.height > lastBlock.height {
          AddedIsStored(params, old(blocks), lastBlock, block, H);
          var found := Reorganise(wallet, blocks, block, lastBlock, now, rank);
          if !found {
            outcome := Failed;
            return;
          }
          lastBlock := block;
        }
      }
    }

    // ----- relays

    /** The part of `_peerRelayedBlock` that decides what becomes of the block. */
    method AcceptBlock(r: Relay, ghost H: Hash -> nat, ghost rank: Hash -> nat) returns (outcome: Outcome)
      requires Inv(params, State(), H) && Sound(params, H) && Commits(r.block, H)
      requires Ledger(wallet) && Ranked(wallet.allTx, rank)
      modifies this`blocks, this`orphans, this`lastBlock
      modifies wallet`blockHeight, wallet`allTx, wallet`transactions, wallet`balance, wallet`totalSent, wallet`totalReceived,
               wallet`balanceHist, wallet`utxos, wallet`invalidTx, wallet`pendingTx, wallet`spentOutputs, wallet`usedPKH
      ensures (State(), outcome) == Receive(params, old(State()), r, H)
      ensures Ledger(wallet) && Ranked(wallet.allTx, rank)
      ensures forall h :: h in wallet.transactions <==> h in old(wallet.transactions)
      ensures WalletFollows(Checked(params, old(State()), r.block, H), old(lastBlock), blocks, lastBlock, outcome,
                            AtTrueHeight(old(State()), r.block), TimeOf(old(State()), r.block),
                            old(wallet.allTx), wallet.allTx, old(wallet.transactions))
    {
      hide Ledger, Ranked, WalletFollows, Pruned, Verified, Place, TrueHeights, TipIsLast, AgreesWithCheckpoint;
      ghost var before := State();
      CheckedIsPart(params, before, r.block, H);
      WalletUnmoved(Checked(params, before, r.block, H), lastBlock, AtTrueHeight(before, r.block), TimeOf(before, r.block), wallet.allTx,
                    wallet.transactions);
      var prev := Get(blocks, r.block.prevBlock);
      if (r.block.totalTx == 0 && (r.block.timestamp + ONE_WEEK - TWO_HOURS) % TWO_32 > params.earliestKeyTime)
         || !r.filterReady {
        outcome := Dropped;
      } else if prev.None? {
        if (r.block.timestamp + ONE_WEEK) % TWO_32 < r.now {
          outcome := Dropped;
        } else {
          orphans := orphans[r.block.prevBlock := r.block];
          outcome := Kept(r.block);
        }
      } else {
        var block := r.block.(height := prev.value.height + 1);
        var txTime := block.timestamp / 2 + prev.value.timestamp / 2;
        Unpack(params, blocks, lastBlock, H);
        InsertionLinks(params, before, block, H);
        PruningKeeps(params, before, block, H);
        PredecessorSurvives(before.blocks, block);
        var verified := VerifyBlock(block, prev.value);
        if !verified {
          outcome := Dropped;
        } else {
          outcome := PlaceBlock(block, txTime, r.peerLast, r.now, H, rank);
        }
      }
    }

    /** The locked part of `_peerRelayedBlock`: everything up to handing on a waiting orphan. */
    method RelayOnce(r: Relay, ghost H: Hash -> nat, ghost rank: Hash -> nat) returns (outcome: Outcome, next: Option<Block>)
      requires Inv(params, State(), H) && Sound(params, H) && Commits(r.block, H)
      requires Ledger(wallet) && Ranked(wallet.allTx, rank)
      modifies this`blocks, this`orphans, this`lastBlock, this`estimatedHeight
      modifies wallet`blockHeight, wallet`allTx, wallet`transactions, wallet`balance, wallet`totalSent, wallet`totalReceived,
               wallet`balanceHist, wallet`utxos, wallet`invalidTx, wallet`pendingTx, wallet`spentOutputs, wallet`usedPKH
      ensures (State(), outcome, next) == Step(params, old(State()), r, H)
      ensures Ledger(wallet) && Ranked(wallet.allTx, rank)
      ensures forall h :: h in wallet.transactions <==> h in old(wallet.transactions)
      ensures WalletFollows(Checked(params, old(State()), r.block, H), old(lastBlock), blocks, lastBlock, outcome,
                            AtTrueHeight(old(State()), r.block), TimeOf(old(State()), r.block),
                            old(wallet.allTx), wallet.allTx, old(wallet.transactions))
    {
      hide Ledger, Ranked, WalletFollows, Receive, Inv;
      next := None;
      outcome := AcceptBlock(r, H, rank);
      if outcome.Kept? && outcome.block.height != BLOCK_UNKNOWN_HEIGHT {
        if outcome.block.height > estimatedHeight {
          estimatedHeight := outcome.block.height;
        }
        next := Get(orphans, outcome.block.blockHash);
        orphans := orphans - {outcome.block.blockHash};
      }
    }

    /** `_peerRelayedBlock` with the orphans it releases, one after another.  What it does to the
        chain is a run of steps, so that everything proved of runs holds of it, and the wallet
        follows the chain through all of them. */
    method RelayedBlock(r: Relay, ghost H: Hash -> nat, ghost rank: Hash -> nat)
        returns (ghost rs: seq<Relay>, ghost ws: seq<map<Hash, Tx>>, failed: bool)
      requires Inv(params, State(), H) && Sound(params, H) && Commits(r.block, H)
      requires Ledger(wallet) && Ranked(wallet.allTx, rank)
      modifies this`blocks, this`orphans, this`lastBlock, this`estimatedHeight
      modifies wallet`blockHeight, wallet`allTx, wallet`transactions, wallet`balance, wallet`totalSent, wallet`totalReceived,
               wallet`balanceHist, wallet`utxos, wallet`invalidTx, wallet`pendingTx, wallet`spentOutputs, wallet`usedPKH
      ensures rs != [] && rs[0] == r && forall i :: 0 <= i < |rs| ==> Commits(rs[i].block, H)
      ensures forall i :: 0 < i < |rs| ==> rs[i].block.prevBlock == rs[i - 1].block.blockHash
      ensures (State(), failed) == Run(params, old(State()), rs, H)
      ensures !failed ==> Inv(params, State(), H)
      ensures Ledger(wallet) && Ranked(wallet.allTx, rank)
      ensures forall h :: h in wallet.transactions <==> h in old(wallet.transactions)
      ensures |ws| == |rs| + 1 && ws[0] == old(wallet.allTx) && ws[|rs|] == wallet.allTx
      ensures WalletRun(params, old(State()), rs, ws, old(wallet.transactions), H)
      decreases BLOCK_UNKNOWN_HEIGHT - H(r.block.blockHash)
    {
      hide Ledger, Ranked, WalletFollows, WalletRun, Step, Inv, Run;
      ghost var before, list := State(), wallet.transactions;
      ws := [wallet.allTx];
      StepKeeps(params, before, r, H);
      var outcome, next := RelayOnce(r, H, rank);
      rs, ws, failed := [r], ws + [wallet.allTx], outcome.Failed?;
      assert rs[1..] == [] && ws[1..] == [wallet.allTx];
      if next.Some? {
        LaterIsHigher(params, next.value, r.block, H);
        ghost var mid, listed := State(), wallet.transactions;
        ghost var rest, later;
        rest, later, failed := RelayedBlock(r.(block := next.value), H, rank);
        rs, ws := [r] + rest, ws[..1] + later;
        assert rs[1..] == rest && ws[1..] == later;
        WalletRunSame(params, mid, rest, later, listed, list, H);
      } else if !failed {
        NothingFollows(params, State(), wallet.allTx, list, H);
      }
      WalletRunStep(params, before, rs, ws, list, H);
      RunUnfold(params, before, rs, H);
    }
  }

  lemma LaterIsHigher(p: Params, next: Block, block: Block, H: Hash -> nat)
    requires Sound(p, H) && Commits(block, H) && Commits(next, H) && next.prevBlock == block.blockHash
    ensures H(next.blockHash) > H(block.blockHash) && H(next.blockHash) < BLOCK_UNKNOWN_HEIGHT
  {
  }

  lemma RunUnfold(p: Params, c: Chain, rs: seq<Relay>, H: Hash -> nat)
    requires Inv(p, c, H) && Sound(p, H) && rs != [] && forall i :: 0 <= i < |rs| ==> Commits(rs[i].block, H)
    ensures var (c', outcome, _) := Step(p, c, rs[0], H);
            && (!outcome.Failed? ==> Inv(p, c', H))
            && Run(p, c, rs, H) == (if outcome.Failed? then (c', true) else Run(p, c', rs[1..], H))
            && (|rs| == 1 && !outcome.Failed? ==> Run(p, c, rs, H) == (c', false))
  {
    hide Step, Inv;
    StepKeeps(p, c, rs[0], H);
  }

  lemma CheckedIsPart(p: Params, c: Chain, b: Block, H: Hash -> nat)
    requires Inv(p, c, H)
    ensures forall h :: h in Checked(p, c, b, H) ==> h in c.blocks
  {
  }

  lemma WalletUnmoved(blocks: BlockSet, tip: Block, block: Block, time: nat, allTx: map<Hash, Tx>, list: seq<Hash>)
    ensures forall outcome: Outcome, blocks', tip' :: !outcome.Kept? || block.prevBlock !in blocks ==>
              WalletFollows(blocks, tip, blocks', tip', outcome, block, time, allTx, allTx, list)
  {
  }
}

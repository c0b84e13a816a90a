/** What a relayed block does to the transactions of the wallet, bitcoin/BRPeerManager.c, said of heights, times
    and matches alone. */
module WalletProgress {
  import opened Wrappers
  import opened Blocks
  import opened Transactions
  import opened WalletState
  import opened BlockChain
  import opened ChainTheorems
  import opened Reorganisation
  import PeerManager
  import Progress = ChainProgress

  /** The wallet has followed the step from `c` on `r`: the transactions known before and after it. */
  ghost predicate Follows(p: Params, c: Chain, r: Relay, before: map<Hash, Tx>, after: map<Hash, Tx>, list: seq<Hash>, H: Hash -> nat)
    requires Inv(p, c, H) && Sound(p, H) && Commits(r.block, H)
  {
    var (c', outcome, _) := Step(p, c, r, H);
    PeerManager.WalletFollows(PeerManager.Checked(p, c, r.block, H), c.tip, c'.blocks, c'.tip, outcome,
                              PeerManager.AtTrueHeight(c, r.block), PeerManager.TimeOf(c, r.block), before, after, list)
  }

  /** The predecessor of a checked block is not freed. */
  lemma PredecessorStays(p: Params, c: Chain, r: Relay, H: Hash -> nat)
    requires Inv(p, c, H) && Sound(p, H) && Commits(r.block, H) && r.block.prevBlock in c.blocks
    ensures var checked := PeerManager.Checked(p, c, r.block, H);
            && r.block.prevBlock in checked && (r.block.blockHash in checked <==> r.block.blockHash in c.blocks)
            && PeerManager.AtTrueHeight(c, r.block) == Progress.Raised(c, r.block)
  {
    HeightsLink(p, c.blocks, H);
    var b := Progress.Raised(c, r.block);
    InsertionLinks(p, c, b, H);
    PruningKeeps(p, c, b, H);
    Progress.TrueHeight(p, c, b, H);
    hide Pruned;
  }

  /** A block that passes right on the tip: the transactions it reports are confirmed one above the old tip, at the
      mean time of the two blocks; the others stay as they are. */
  lemma ExtensionConfirms(p: Params, c: Chain, r: Relay, before: map<Hash, Tx>, after: map<Hash, Tx>, list: seq<Hash>, H: Hash -> nat)
    requires Inv(p, c, H) && Sound(p, H) && Commits(r.block, H)
    requires r.block.prevBlock == c.tip.blockHash && Progress.IsHandled(p, c, r)
    requires Follows(p, c, r, before, after, list, H)
    ensures forall h :: h in list ==>
              && h in before && h in after
              && after[h] == if h in r.block.matches
                             then before[h].(blockHeight := c.tip.height + 1,
                                             timestamp := r.block.timestamp / 2 + c.tip.timestamp / 2)
                             else before[h]
  {
    PredecessorStays(p, c, r, H);
    Progress.TipExtends(p, c, r, H);
    hide Progress.IsHandled, Step, PeerManager.Checked, Join, DownTo;
  }

  /** Nothing else than a block on the main chain or a new tip touches the wallet. */
  lemma OthersTouchNothing(p: Params, c: Chain, r: Relay, before: map<Hash, Tx>, after: map<Hash, Tx>, list: seq<Hash>, H: Hash -> nat)
    requires Inv(p, c, H) && Sound(p, H) && Commits(r.block, H) && Follows(p, c, r, before, after, list, H)
    requires !Step(p, c, r, H).1.Failed?
    requires Step(p, c, r, H).0.tip.blockHash == c.tip.blockHash
    requires !Progress.IsHandled(p, c, r) || r.block.blockHash !in c.blocks
    ensures after == before
  {
    if r.block.prevBlock in c.blocks {
      PredecessorStays(p, c, r, H);
    } else {
      PeerManager.CheckedIsPart(p, c, r.block, H);
    }
    if Progress.IsHandled(p, c, r) {
      Progress.HandledExactly(p, c, r, H);
      Progress.TrueHeight(p, c, Progress.Raised(c, r.block), H);
      Progress.TipAtHeight(p, c, Progress.Raised(c, r.block), H);
    } else {
      Progress.UnhandledExactly(p, c, r, H);
    }
    hide Progress.IsHandled, Step, PeerManager.Checked, Join, DownTo, Inv, Sound, Progress.Checked;
  }

  /** A stored block that passes again, not right on the tip: if it is on the main chain, what it reports is confirmed at
      its height, at the mean time of it and its predecessor; if it is not, nothing changes. */
  lemma StoredConfirms(p: Params, c: Chain, r: Relay, before: map<Hash, Tx>, after: map<Hash, Tx>, list: seq<Hash>, H: Hash -> nat)
    requires Inv(p, c, H) && Sound(p, H) && Commits(r.block, H) && Follows(p, c, r, before, after, list, H)
    requires Progress.IsHandled(p, c, r) && !Step(p, c, r, H).1.Failed?
    requires r.block.blockHash in c.blocks && r.block.prevBlock != c.tip.blockHash
    ensures var checked := Progress.Checked(c, Progress.Raised(c, r.block));
            && r.block.blockHash in checked
            && if IsAncestor(checked, c.tip, checked[r.block.blockHash]) then
                 forall h :: h in list ==>
                   && h in before && h in after
                   && after[h] == if h in r.block.matches
                                  then before[h].(blockHeight := c.blocks[r.block.prevBlock].height + 1,
                                                  timestamp := r.block.timestamp / 2 + c.blocks[r.block.prevBlock].timestamp / 2)
                                  else before[h]
               else after == before
  {
    PredecessorStays(p, c, r, H);
    SameChecked(p, c, r, H);
    Progress.HandledExactly(p, c, r, H);
    MainChainExactly(p, c, r, H);
    hide Progress.IsHandled, Step, PeerManager.Checked, Progress.Checked, Join, DownTo, Inv, Sound, IsAncestor;
  }

  lemma SameChecked(p: Params, c: Chain, r: Relay, H: Hash -> nat)
    requires Inv(p, c, H) && Sound(p, H) && Commits(r.block, H) && r.block.prevBlock in c.blocks
    ensures PeerManager.Checked(p, c, r.block, H) == Progress.Checked(c, Progress.Raised(c, r.block))
  {
    HeightsLink(p, c.blocks, H);
    hide Pruned, Inv;
  }

  /** The walk down from the tip finds a stored block at its height exactly if it is an ancestor of the tip. */
  lemma MainChainExactly(p: Params, c: Chain, r: Relay, H: Hash -> nat)
    requires Inv(p, c, H) && Sound(p, H) && Commits(r.block, H)
    requires r.block.prevBlock in c.blocks && r.block.blockHash in PeerManager.Checked(p, c, r.block, H)
    ensures var b, blocks := Progress.Raised(c, r.block), PeerManager.Checked(p, c, r.block, H);
            var found := DownTo(blocks, c.tip, b.height);
            IsAncestor(blocks, c.tip, blocks[b.blockHash]) <==> found.Some? && found.value.blockHash == b.blockHash
  {
    var b, blocks := Progress.Raised(c, r.block), PeerManager.Checked(p, c, r.block, H);
    CheckedKeeps(p, c, r, H);
    Progress.TrueHeight(p, c, b, H);
    hide PeerManager.Checked, Pruned, Sound, Commits;
    var x := blocks[b.blockHash];
    StoredAtHeight(p, c.(blocks := blocks), b, H);
    if IsAncestor(blocks, c.tip, x) {
      AncestorIsLower(blocks, c.tip, x);
    }
    var found := DownTo(blocks, c.tip, b.height);
    if found.Some? && found.value.blockHash == b.blockHash {
      FoundIsStored(blocks, c.tip, b.height);
    }
  }

  lemma CheckedKeeps(p: Params, c: Chain, r: Relay, H: Hash -> nat)
    requires Inv(p, c, H) && Sound(p, H) && Commits(r.block, H) && r.block.prevBlock in c.blocks
    ensures var blocks := PeerManager.Checked(p, c, r.block, H);
            Inv(p, c.(blocks := blocks), H) && AllLinked(blocks) && Keyed(blocks) && Linked(blocks, c.tip) && Stored(blocks, c.tip)
  {
    HeightsLink(p, c.blocks, H);
    InsertionLinks(p, c, Progress.Raised(c, r.block), H);
    PruningKeeps(p, c, Progress.Raised(c, r.block), H);
    hide Pruned;
  }

  lemma StoredAtHeight(p: Params, c: Chain, b: Block, H: Hash -> nat)
    requires Inv(p, c, H) && b.blockHash in c.blocks && b.height == H(b.blockHash)
    ensures c.blocks[b.blockHash].height == b.height && c.blocks[b.blockHash].blockHash == b.blockHash
    ensures b.height == c.tip.height && b.blockHash == c.tip.blockHash ==> c.blocks[b.blockHash] == c.tip
  {
  }

  lemma FoundIsStored(blocks: BlockSet, tip: Block, height: nat)
    requires Keyed(blocks) && Stored(blocks, tip) && DownTo(blocks, tip, height).Some?
    ensures Stored(blocks, DownTo(blocks, tip, height).value) && IsAncestor(blocks, tip, DownTo(blocks, tip, height).value)
  {
    if tip.height <= height {
      assert Ancestor(blocks, tip, 0) == Some(tip);
    } else {
      AncestorIsStored(blocks, tip, tip.height - height);
    }
  }

  /** A block `i` steps below the new tip reports `h`, and none from there down to the join does. */
  ghost predicate IsLowestReport(blocks: BlockSet, tip: Block, join: Block, i: nat, h: Hash) {
    && Matches(blocks, tip, i, h) && i + join.height < tip.height
    && forall k: nat :: i < k && k + join.height < tip.height ==> !Matches(blocks, tip, k, h)
  }

  /** If the branch from the join to the new tip reports `h`, it has the height of the lowest block that does, and the
      mean time of that block and its predecessor; if not, it is unconfirmed if it was above the join, and else as before. */
  ghost predicate IsMoved(blocks: BlockSet, tip: Block, join: Block, before: map<Hash, Tx>, after: map<Hash, Tx>, h: Hash) {
    && h in before && h in after
    && (forall i: nat :: IsLowestReport(blocks, tip, join, i, h) ==>
          && Ancestor(blocks, tip, i).Some? && Ancestor(blocks, tip, i + 1).Some?
          && after[h] == before[h].(blockHeight := tip.height - i,
                                    timestamp := Ancestor(blocks, tip, i).value.timestamp / 2
                                                 + Ancestor(blocks, tip, i + 1).value.timestamp / 2))
    && ((forall i: nat :: i + join.height < tip.height ==> !Matches(blocks, tip, i, h)) ==>
          after[h] == if before[h].blockHeight > join.height then before[h].(blockHeight := 0x7fff_ffff) else before[h])
  }

  /** A new tip on another branch that meets the old one: the transactions of the wallet move to the new branch from
      the highest common ancestor of the tips. */
  lemma ReorganisationConfirms(p: Params, c: Chain, r: Relay, before: map<Hash, Tx>, after: map<Hash, Tx>, list: seq<Hash>,
                               join: Block, h: Hash, H: Hash -> nat)
    requires Inv(p, c, H) && Sound(p, H) && Commits(r.block, H) && Follows(p, c, r, before, after, list, H)
    requires !Step(p, c, r, H).1.Failed? && Inv(p, Step(p, c, r, H).0, H)
    requires Step(p, c, r, H).0.tip.blockHash != c.tip.blockHash && r.block.prevBlock != c.tip.blockHash
    requires var c' := Step(p, c, r, H).0;
             && IsCommon(c'.blocks, c'.tip, c.tip, join)
             && forall z :: IsCommon(c'.blocks, c'.tip, c.tip, z) ==> z.height <= join.height
    requires h in list
    ensures var c' := Step(p, c, r, H).0; IsMoved(c'.blocks, c'.tip, join, before, after, h)
  {
    hide Step, Inv, Sound, Commits, IsCommon, Join, Follows, IsMoved, Ancestor, Reorganised, AllLinked, Keyed, Linked, Stored;
    var c' := Step(p, c, r, H).0;
    NewTip(p, c, r, before, after, list, H);
    BranchesMeet(c'.blocks, c'.tip, c.tip, join);
    ReorganisedMeans(c'.blocks, c'.tip, join, before, after, list, h);
  }

  /** The tip is on a branch that has outgrown that of the old tip, and the wallet has been moved if they meet. */
  ghost predicate IsReplaced(blocks: BlockSet, tip: Block, old0: Block, before: map<Hash, Tx>, after: map<Hash, Tx>, list: seq<Hash>) {
    && AllLinked(blocks) && Keyed(blocks) && Linked(blocks, tip) && Stored(blocks, old0) && Stored(blocks, tip)
    && tip.height > old0.height
    && var (b, b2) := Join(blocks, tip, old0);
       b.Some? && b2.Some? ==>
         && tip.height >= b.value.height && Ancestor(blocks, tip, tip.height - b.value.height).Some?
         && Reorganised(blocks, tip, b.value, before, after, list)
  }

  lemma NewTip(p: Params, c: Chain, r: Relay, before: map<Hash, Tx>, after: map<Hash, Tx>, list: seq<Hash>, H: Hash -> nat)
    requires Inv(p, c, H) && Sound(p, H) && Commits(r.block, H) && Follows(p, c, r, before, after, list, H)
    requires !Step(p, c, r, H).1.Failed?
    requires Step(p, c, r, H).0.tip.blockHash != c.tip.blockHash && r.block.prevBlock != c.tip.blockHash
    ensures var c' := Step(p, c, r, H).0; IsReplaced(c'.blocks, c'.tip, c.tip, before, after, list)
  {
    hide Progress.Passes, Step, PeerManager.Checked, Join, DownTo, Inv, Sound, Progress.Checked, Reorganised, Ancestor,
         PeerManager.AtTrueHeight, PeerManager.TimeOf, AllLinked, Linked, Keyed, Commits;
    StepKeeps(p, c, r, H);
    KeyedBlocks(p, Step(p, c, r, H).0, H);
    Progress.TipMovesExactly(p, c, r, H);
    PredecessorStays(p, c, r, H);
    Progress.HandledExactly(p, c, r, H);
  }

  lemma KeyedBlocks(p: Params, c: Chain, H: Hash -> nat)
    requires Inv(p, c, H)
    ensures Keyed(c.blocks)
  {
  }

  lemma BranchesMeet(blocks: BlockSet, b: Block, b2: Block, join: Block)
    requires AllLinked(blocks) && Keyed(blocks) && Linked(blocks, b) && Stored(blocks, b) && Stored(blocks, b2) && b.height >= b2.height
    requires IsCommon(blocks, b, b2, join) && forall z :: IsCommon(blocks, b, b2, z) ==> z.height <= join.height
    ensures Join(blocks, b, b2) == (Some(join), Some(join))
  {
    hide IsCommon, Join, AllLinked, Keyed, Stored, Linked;
    JoinIsHighest(blocks, b, b2);
    SameHeight(blocks, b, b2, Join(blocks, b, b2).0.value, join);
  }

  lemma SameHeight(blocks: BlockSet, b: Block, b2: Block, x: Block, y: Block)
    requires AllLinked(blocks) && Linked(blocks, b)
    requires IsCommon(blocks, b, b2, x) && IsCommon(blocks, b, b2, y) && x.height == y.height
    ensures x == y
  {
    hide IsAncestor, Ancestor, AllLinked, Linked;
    AncestorIsLower(blocks, b, x);
    AncestorIsLower(blocks, b, y);
  }

  lemma ReorganisedMeans(blocks: BlockSet, tip: Block, join: Block, before: map<Hash, Tx>, after: map<Hash, Tx>, list: seq<Hash>, h: Hash)
    requires AllLinked(blocks) && Linked(blocks, tip)
    requires tip.height >= join.height && Ancestor(blocks, tip, tip.height - join.height).Some?
    requires Reorganised(blocks, tip, join, before, after, list) && h in list
    ensures IsMoved(blocks, tip, join, before, after, h)
  {
    hide Ancestor, Confirmed, Linked, AllLinked;
    var n := tip.height - join.height;
    if Confirmed(blocks, tip, n, h).None? {
      ConfirmedNone(blocks, tip, n, h);
    } else {
      var j := ConfirmedSome(blocks, tip, n, h);
      AncestorHeight(blocks, tip, j);
      forall i: nat | IsLowestReport(blocks, tip, join, i, h) ensures i == j {
        assert Matches(blocks, tip, i, h) && Matches(blocks, tip, j, h);
      }
    }
  }

  // ----- blocks in a row

  lemma WalletFirst(p: Params, c: Chain, rs: seq<Relay>, ws: seq<map<Hash, Tx>>, list: seq<Hash>, H: Hash -> nat)
    requires Inv(p, c, H) && Sound(p, H) && rs != [] && forall i :: 0 <= i < |rs| ==> Commits(rs[i].block, H)
    requires PeerManager.WalletRun(p, c, rs, ws, list, H)
    ensures var (c', outcome, _) := Step(p, c, rs[0], H);
            && |ws| == |rs| + 1 && Follows(p, c, rs[0], ws[0], ws[1], list, H)
            && (outcome.Failed? || (Inv(p, c', H) && PeerManager.WalletRun(p, c', rs[1..], ws[1..], list, H)))
  {
    hide Inv, Step, PeerManager.WalletFollows;
    StepKeeps(p, c, rs[0], H);
  }

  lemma WalletRunLength(p: Params, c: Chain, rs: seq<Relay>, ws: seq<map<Hash, Tx>>, list: seq<Hash>, H: Hash -> nat)
    requires Inv(p, c, H) && Sound(p, H) && forall i :: 0 <= i < |rs| ==> Commits(rs[i].block, H)
    requires PeerManager.WalletRun(p, c, rs, ws, list, H)
    ensures |ws| == |rs| + 1
  {
    hide Inv, Step, PeerManager.WalletFollows;
  }

  /** The relay before position `last` is the last one whose block reports `h`; at 0, none does. */
  predicate IsLast(rs: seq<Relay>, last: nat, h: Hash) {
    && last <= |rs| && (last > 0 ==> h in rs[last - 1].block.matches)
    && forall k :: last <= k < |rs| ==> h !in rs[k].block.matches
  }

  /** Blocks relayed in a row confirm what they report: a transaction ends at the height of the last of them that
      reports it, and one that none reports keeps its height. */
  lemma {:induction false} RowConfirms(p: Params, c: Chain, rs: seq<Relay>, ws: seq<map<Hash, Tx>>, list: seq<Hash>, h: Hash, last: nat,
                                             H: Hash -> nat)
    requires Inv(p, c, H) && Sound(p, H) && forall i :: 0 <= i < |rs| ==> Commits(rs[i].block, H)
    requires Progress.InRow(p, c, rs, H) && PeerManager.WalletRun(p, c, rs, ws, list, H) && h in list
    ensures |ws| == |rs| + 1
    ensures rs != [] ==> h in ws[0] && h in ws[|rs|]
    ensures rs != [] && IsLast(rs, last, h) ==>
              ws[|rs|][h].blockHeight == if last > 0 then c.tip.height + last else ws[0][h].blockHeight
    decreases |rs|
  {
    hide Inv, Step, Progress.IsHandled, Sound, Commits, Progress.InRow, PeerManager.WalletRun, Follows;
    WalletRunLength(p, c, rs, ws, list, H);
    if rs != [] {
      Progress.RowFirst(p, c, rs, H);
      Progress.TipExtends(p, c, rs[0], H);
      WalletFirst(p, c, rs, ws, list, H);
      ExtensionConfirms(p, c, rs[0], ws[0], ws[1], list, H);
      var mid := Step(p, c, rs[0], H).0;
      RowConfirms(p, mid, rs[1..], ws[1..], list, h, if last > 0 then last - 1 else 0, H);
      assert ws[1..][|rs| - 1] == ws[|rs|] && ws[1..][0] == ws[1];
      if IsLast(rs, last, h) {
        RestLast(rs, last, h);
      }
    }
  }

  lemma RestLast(rs: seq<Relay>, last: nat, h: Hash)
    requires rs != [] && IsLast(rs, last, h)
    ensures IsLast(rs[1..], if last > 0 then last - 1 else 0, h)
    ensures last == 0 ==> h !in rs[0].block.matches
    ensures last == 1 ==> h in rs[0].block.matches
  {
  }
}

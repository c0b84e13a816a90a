/** Saving the end of the chain and starting from it, bitcoin/BRPeerManager.c. */
module ChainResume {
  import opened Wrappers
  import opened Blocks
  import opened Retarget
  import opened BlockChain
  import opened ChainTheorems
  import opened Reorganisation
  import opened PeerManager

  /** The blocks saved are the tip and those below it, `m` in all, in any order and as often as may be, down to one at a
      difficulty transition. */
  ghost predicate IsEnd(blocks: BlockSet, tip: Block, m: nat, saved: seq<Block>) {
    && m > 0 && Ancestor(blocks, tip, m - 1).Some?
    && Ancestor(blocks, tip, m - 1).value.height % DIFFICULTY_INTERVAL == 0
    && (forall k: nat :: k < m ==> IsSavedAt(blocks, tip, saved, k))
    && forall i :: 0 <= i < |saved| ==> exists k: nat :: k < m && Ancestor(blocks, tip, k) == Some(saved[i])
  }

  ghost predicate IsSavedAt(blocks: BlockSet, tip: Block, saved: seq<Block>, k: nat) {
    exists i :: 0 <= i < |saved| && Ancestor(blocks, tip, k) == Some(saved[i])
  }

  ghost predicate IsChain(blocks: BlockSet, tip: Block) {
    AllLinked(blocks) && Keyed(blocks) && Linked(blocks, tip) && Stored(blocks, tip)
  }

  /** What `BRPeerManagerNew` builds from blocks saved like that ends at the tip they were saved with. */
  lemma TipIsRestored(p: Params, blocks: BlockSet, tip: Block, m: nat, saved: seq<Block>, filed: BlockSet, row: seq<Block>, c: Chain)
    requires IsChain(blocks, tip) && IsEnd(blocks, tip, m, saved) && IsResumed(p, saved, filed, row, c)
    ensures c.tip == tip
  {
    hide IsChain, Ancestor, IsFiled, IsRow;
    assert IsSavedAt(blocks, tip, saved, m - 1);
    assert row != [];
    var i :| 0 <= i < |saved| && saved[i] == row[0];
    var t: nat :| t < m && Ancestor(blocks, tip, t) == Some(saved[i]);
    RowDescends(blocks, tip, m, saved, filed, row, t);
  }

  /** And so with the blocks that a manager gives out to be saved. */
  lemma SavedIsRestored(p: Params, blocks: BlockSet, tip: Block, given: seq<Block>, saved: seq<Block>, filed: BlockSet, row: seq<Block>,
                        c: Chain)
    requires IsChain(blocks, tip) && IsResumed(p, saved, filed, row, c) && multiset(saved) == multiset(given) && given != []
    requires forall k :: 0 <= k < |given| ==> Ancestor(blocks, tip, k) == Some(given[k])
    requires given[|given| - 1].height % DIFFICULTY_INTERVAL == 0
    ensures c.tip == tip
  {
    hide Ancestor, IsResumed, IsChain;
    forall k: nat | k < |given| ensures IsSavedAt(blocks, tip, saved, k) {
      assert given[k] in multiset(saved);
    }
    forall i | 0 <= i < |saved| ensures exists k: nat :: k < |given| && Ancestor(blocks, tip, k) == Some(saved[i]) {
      assert saved[i] in multiset(given);
      var k :| 0 <= k < |given| && given[k] == saved[i];
      assert Ancestor(blocks, tip, k) == Some(saved[i]);
    }
    TipIsRestored(p, blocks, tip, |given|, saved, filed, row, c);
  }

  /** The only block filed under one of the chain is the next one up. */
  lemma FiledNext(blocks: BlockSet, tip: Block, m: nat, saved: seq<Block>, filed: BlockSet, k: nat)
    requires IsChain(blocks, tip) && IsEnd(blocks, tip, m, saved) && IsFiled(saved, filed) && k < m
    requires Ancestor(blocks, tip, k).Some?
    ensures var h := Ancestor(blocks, tip, k).value.blockHash;
            if k == 0 then h !in filed else h in filed && Some(filed[h]) == Ancestor(blocks, tip, k - 1)
  {
    var h := Ancestor(blocks, tip, k).value.blockHash;
    AncestorHeight(blocks, tip, k);
    IsStored(blocks, tip, k);
    hide Ancestor, IsChain;
    if h in filed {
      var i :| 0 <= i < |saved| && saved[i] == filed[h] && saved[i].prevBlock == h;
      var j: nat :| j < m && Ancestor(blocks, tip, j) == Some(saved[i]);
      NextUp(blocks, tip, k, j);
    }
    if k > 0 {
      Below(blocks, tip, k);
      assert IsSavedAt(blocks, tip, saved, k - 1);
    }
  }

  lemma IsStored(blocks: BlockSet, tip: Block, k: nat)
    requires IsChain(blocks, tip) && Ancestor(blocks, tip, k).Some?
    ensures Stored(blocks, Ancestor(blocks, tip, k).value)
  {
    if k > 0 {
      AncestorIsStored(blocks, tip, k);
    }
  }

  lemma Below(blocks: BlockSet, tip: Block, k: nat)
    requires IsChain(blocks, tip) && k > 0 && Ancestor(blocks, tip, k).Some?
    ensures Ancestor(blocks, tip, k - 1).Some? && Ancestor(blocks, tip, k - 1).value.prevBlock == Ancestor(blocks, tip, k).value.blockHash
  {
    AncestorPrefix(blocks, tip, k - 1, k);
    AncestorStep(blocks, tip, k - 1);
    hide Ancestor;
  }

  /** Two ancestors of which one has the other as predecessor are next to each other. */
  lemma NextUp(blocks: BlockSet, tip: Block, k: nat, j: nat)
    requires IsChain(blocks, tip) && Ancestor(blocks, tip, k).Some? && Ancestor(blocks, tip, j).Some?
    requires Ancestor(blocks, tip, j).value.prevBlock == Ancestor(blocks, tip, k).value.blockHash
    ensures j + 1 == k
  {
    AncestorHeight(blocks, tip, k);
    AncestorHeight(blocks, tip, j);
    IsStored(blocks, tip, k);
    IsStored(blocks, tip, j);
    hide Ancestor;
  }

  lemma {:induction false} RowDescends(blocks: BlockSet, tip: Block, m: nat, saved: seq<Block>, filed: BlockSet, row: seq<Block>, t: nat)
    requires IsChain(blocks, tip) && IsEnd(blocks, tip, m, saved) && IsFiled(saved, filed) && IsRow(filed, row)
    requires row != [] && row[|row| - 1].blockHash !in filed
    requires t < m && Ancestor(blocks, tip, t) == Some(row[0])
    ensures row[|row| - 1] == tip
    decreases t
  {
    FiledNext(blocks, tip, m, saved, filed, t);
    if |row| == 1 {
      assert t == 0;
      assert Ancestor(blocks, tip, 0) == Some(tip);
    } else {
      hide Ancestor, IsChain, IsFiled, IsEnd;
      var rest := row[1..];
      assert row[0].blockHash in filed && filed[row[0].blockHash] == row[1];
      assert forall k :: 0 <= k < |rest| ==> rest[k] == row[k + 1];
      RowDescends(blocks, tip, m, saved, filed, rest, t - 1);
    }
  }
}

/** Block headers, the hash-indexed block set of the source, and walks over it. */
module Blocks {
  import opened Wrappers

  /** The fields of a merkle block that chain handling reads; `matches` is what the partial
      Merkle tree of the block reports (empty for a bare header). */
  datatype Block = Block(blockHash: Hash, prevBlock: Hash, timestamp: nat, target: nat, height: nat,
                         totalTx: nat, matches: seq<Hash>)

  /** A `BRSet` of blocks compared by block hash. */
  type BlockSet = map<Hash, Block>

  predicate Keyed(blocks: BlockSet) {
    forall h :: h in blocks ==> blocks[h].blockHash == h
  }

  /** `BRSetGet`. */
  function Get(blocks: BlockSet, h: Hash): Option<Block> {
    if h in blocks then Some(blocks[h]) else None
  }

  /** The block reached from `b` by following `prevBlock` `n` times within the set. */
  function Ancestor(blocks: BlockSet, b: Block, n: nat): Option<Block>
    decreases n
  {
    if n == 0 then Some(b)
    else match Get(blocks, b.prevBlock)
      case None => None
      case Some(p) => Ancestor(blocks, p, n - 1)
  }

  lemma {:induction false} AncestorSum(blocks: BlockSet, b: Block, m: nat, n: nat)
    requires Ancestor(blocks, b, m).Some?
    ensures Ancestor(blocks, b, m + n) == Ancestor(blocks, Ancestor(blocks, b, m).value, n)
    decreases m
  {
    if m > 0 {
      AncestorSum(blocks, Get(blocks, b.prevBlock).value, m - 1, n);
    }
  }

  /** One more step. */
  lemma AncestorStep(blocks: BlockSet, b: Block, m: nat)
    requires Ancestor(blocks, b, m).Some?
    ensures Ancestor(blocks, b, m + 1) == Get(blocks, Ancestor(blocks, b, m).value.prevBlock)
  {
    AncestorSum(blocks, b, m, 1);
    var p := Get(blocks, Ancestor(blocks, b, m).value.prevBlock);
    assert p.Some? ==> Ancestor(blocks, p.value, 0) == p;
  }

  lemma AncestorMissing(blocks: BlockSet, b: Block, m: nat, n: nat)
    requires m <= n && Ancestor(blocks, b, m).None?
    ensures Ancestor(blocks, b, n).None?
  {
    if Ancestor(blocks, b, n).Some? {
      AncestorPrefix(blocks, b, m, n);
      assert false;
    }
  }

  lemma {:induction false} AncestorPrefix(blocks: BlockSet, b: Block, m: nat, n: nat)
    requires m <= n && Ancestor(blocks, b, n).Some?
    ensures Ancestor(blocks, b, m).Some?
    decreases m
  {
    if m > 0 {
      AncestorPrefix(blocks, Get(blocks, b.prevBlock).value, m - 1, n - 1);
    }
  }

  /** Wherever the predecessor of a block is stored, heights differ by one. */
  predicate Linked(blocks: BlockSet, b: Block) {
    b.prevBlock in blocks ==> b.height == blocks[b.prevBlock].height + 1
  }

  predicate AllLinked(blocks: BlockSet) {
    forall h :: h in blocks ==> Linked(blocks, blocks[h])
  }

  lemma {:induction false} AncestorHeight(blocks: BlockSet, b: Block, n: nat)
    requires AllLinked(blocks) && Linked(blocks, b)
    requires Ancestor(blocks, b, n).Some?
    ensures b.height == Ancestor(blocks, b, n).value.height + n
    decreases n
  {
    if n > 0 {
      AncestorHeight(blocks, Get(blocks, b.prevBlock).value, n - 1);
    }
  }
}

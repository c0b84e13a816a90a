/** Bitcoin's Merkle trees, as the comments of bitcoin/BRMerkleBlock.c describe them:
    rows of hashes, each formed from the row below by hashing neighbours, the last hash of an
    odd row being paired with itself.  The whole tree is kept (rather than only its rows), so
    that the partial trees of BIP 37 can be defined as prunings of it. */
module MerkleTree {
  import opened Wrappers

  const ZERO: Hash := 0

  /** SHA-256d of two concatenated hashes, left abstract. */
  type Combine = (Hash, Hash) -> Hash

  /** What the proofs need of SHA-256d: it is collision free and never yields zero. */
  ghost predicate CollisionFree(h: Combine) {
    && (forall a, b :: h(a, b) != ZERO)
    && (forall a, b, c, d :: h(a, b) == h(c, d) ==> a == c && b == d)
  }

  /** The complete tree over all transactions of a block; `matched` marks the transactions
      the bloom filter matched.  A node whose right child does not exist has `None`. */
  datatype Tree = Tip(txid: Hash, matched: bool) | Node(left: Tree, right: Option<Tree>)

  function Root(h: Combine, t: Tree): Hash {
    match t
    case Tip(txid, _) => txid
    case Node(l, None) => h(Root(h, l), Root(h, l))
    case Node(l, Some(r)) => h(Root(h, l), Root(h, r))
  }

  function Leaves(t: Tree): (s: seq<Tree>)
    ensures |s| > 0 && forall x :: x in s ==> x.Tip?
  {
    match t
    case Tip(_, _) => [t]
    case Node(l, None) => Leaves(l)
    case Node(l, Some(r)) => Leaves(l) + Leaves(r)
  }

  /** All leaves of `t` lie exactly `level` below it. */
  ghost predicate Perfect(t: Tree, level: nat) {
    match t
    case Tip(_, _) => level == 0
    case Node(l, None) => level > 0 && Perfect(l, level - 1)
    case Node(l, Some(r)) => level > 0 && Perfect(l, level - 1) && Perfect(r, level - 1)
  }

  /** A right child is missing only on the right spine; `last` says whether `t` itself is on it. */
  ghost predicate GapsOnSpine(t: Tree, last: bool) {
    match t
    case Tip(_, _) => true
    case Node(l, None) => last && GapsOnSpine(l, true)
    case Node(l, Some(r)) => GapsOnSpine(l, false) && GapsOnSpine(r, last)
  }

  // ----- rows

  /** The row of trees above `row`. */
  function Above(row: seq<Tree>): (r: seq<Tree>)
    ensures |r| == (|row| + 1) / 2
  {
    if row == [] then []
    else if |row| == 1 then [Node(row[0], None)]
    else [Node(row[0], Some(row[1]))] + Above(row[2..])
  }

  /** The tree that is left when rows are formed until one node remains. */
  function Grow(row: seq<Tree>): Tree
    requires |row| > 0
    decreases |row|
  {
    if |row| == 1 then row[0] else Grow(Above(row))
  }

  /** Number of rows above the leaves. */
  function Levels(n: nat): nat {
    if n <= 1 then 0 else 1 + Levels((n + 1) / 2)
  }

  function Tips(txids: seq<Hash>, matched: seq<bool>): seq<Tree>
    requires |txids| == |matched|
  {
    seq(|txids|, i requires 0 <= i < |txids| => Tip(txids[i], matched[i]))
  }

  function BlockTree(txids: seq<Hash>, matched: seq<bool>): Tree
    requires |txids| == |matched| > 0
  {
    Grow(Tips(txids, matched))
  }

  // ----- the same root, computed on rows of hashes

  function HashRowAbove(h: Combine, row: seq<Hash>): (r: seq<Hash>)
    ensures |r| == (|row| + 1) / 2
  {
    if row == [] then []
    else if |row| == 1 then [h(row[0], row[0])]
    else [h(row[0], row[1])] + HashRowAbove(h, row[2..])
  }

  /** The Merkle root as a reference definition: rows of hashes, no tree. */
  function MerkleRoot(h: Combine, row: seq<Hash>): Hash
    requires |row| > 0
    decreases |row|
  {
    if |row| == 1 then row[0] else MerkleRoot(h, HashRowAbove(h, row))
  }

  function Roots(h: Combine, row: seq<Tree>): seq<Hash> {
    seq(|row|, i requires 0 <= i < |row| => Root(h, row[i]))
  }

  lemma {:induction false} RootsAbove(h: Combine, row: seq<Tree>)
    ensures Roots(h, Above(row)) == HashRowAbove(h, Roots(h, row))
  {
    if |row| >= 2 {
      RootsAbove(h, row[2..]);
      assert Roots(h, row)[2..] == Roots(h, row[2..]);
      assert Roots(h, Above(row)) == [h(Root(h, row[0]), Root(h, row[1]))] + Roots(h, Above(row[2..]));
    }
  }

  lemma {:induction false} GrowRoot(h: Combine, row: seq<Tree>)
    requires |row| > 0
    ensures Root(h, Grow(row)) == MerkleRoot(h, Roots(h, row))
    decreases |row|
  {
    if |row| > 1 {
      RootsAbove(h, row);
      GrowRoot(h, Above(row));
    }
  }

  /** The tree over all transactions has the Merkle root of the plain list of txids. */
  lemma BlockTreeRoot(h: Combine, txids: seq<Hash>, matched: seq<bool>)
    requires |txids| == |matched| > 0
    ensures Root(h, BlockTree(txids, matched)) == MerkleRoot(h, txids)
  {
    GrowRoot(h, Tips(txids, matched));
    assert Roots(h, Tips(txids, matched)) == txids;
  }

  // ----- shape of the tree

  ghost predicate PerfectRow(row: seq<Tree>, level: nat) {
    forall i :: 0 <= i < |row| ==> Perfect(row[i], level) && GapsOnSpine(row[i], i == |row| - 1)
  }

  /** A tree off the spine has no gap, so it may also be put on the spine. */
  lemma {:induction false} NoGapsAnywhere(t: Tree, last: bool)
    requires GapsOnSpine(t, false)
    ensures GapsOnSpine(t, last)
  {
    if t.Node? && t.right.Some? {
      NoGapsAnywhere(t.right.value, last);
    }
  }

  lemma {:induction false} AboveIsPerfect(row: seq<Tree>, level: nat)
    requires PerfectRow(row, level)
    ensures PerfectRow(Above(row), level + 1)
  {
    if |row| >= 2 {
      var rest := row[2..];
      forall i | 0 <= i < |rest| ensures Perfect(rest[i], level) && GapsOnSpine(rest[i], i == |rest| - 1) {
        assert rest[i] == row[i + 2];
      }
      AboveIsPerfect(rest, level);
      NoGapsAnywhere(row[0], true);
    }
  }

  lemma {:induction false} GrowIsPerfect(row: seq<Tree>, level: nat)
    requires |row| > 0 && PerfectRow(row, level)
    ensures Perfect(Grow(row), level + Levels(|row|))
    ensures GapsOnSpine(Grow(row), true)
    decreases |row|
  {
    if |row| > 1 {
      AboveIsPerfect(row, level);
      GrowIsPerfect(Above(row), level + 1);
    }
  }

  function Flatten(row: seq<Tree>): seq<Tree> {
    if row == [] then [] else Leaves(row[0]) + Flatten(row[1..])
  }

  lemma {:induction false} FlattenAbove(row: seq<Tree>)
    ensures Flatten(Above(row)) == Flatten(row)
  {
    if |row| == 1 {
      assert Above(row)[1..] == [] && row[1..] == [];
    } else if |row| >= 2 {
      FlattenAbove(row[2..]);
      assert Above(row)[1..] == Above(row[2..]);
      assert row[1..][1..] == row[2..];
      assert Flatten(row) == Leaves(row[0]) + (Leaves(row[1]) + Flatten(row[2..]));
    }
  }

  lemma {:induction false} GrowLeaves(row: seq<Tree>)
    requires |row| > 0
    ensures Leaves(Grow(row)) == Flatten(row)
    decreases |row|
  {
    if |row| == 1 {
      assert row[1..] == [];
    } else {
      FlattenAbove(row);
      GrowLeaves(Above(row));
    }
  }

  lemma {:induction false} FlattenTips(row: seq<Tree>)
    requires forall i :: 0 <= i < |row| ==> row[i].Tip?
    ensures Flatten(row) == row
  {
    if row != [] {
      FlattenTips(row[1..]);
    }
  }

  /** Shape of the block's tree: `Levels(n)` levels, gaps only on the right spine, and the
      transactions as its leaves, in order. */
  lemma BlockTreeShape(txids: seq<Hash>, matched: seq<bool>)
    requires |txids| == |matched| > 0
    ensures Perfect(BlockTree(txids, matched), Levels(|txids|))
    ensures GapsOnSpine(BlockTree(txids, matched), true)
    ensures Leaves(BlockTree(txids, matched)) == Tips(txids, matched)
  {
    var row := Tips(txids, matched);
    GrowIsPerfect(row, 0);
    GrowLeaves(row);
    FlattenTips(row);
  }

  // ----- collision freedom lifted to trees

  ghost predicate DistinctTxids(leaves: seq<Tree>)
    requires forall x :: x in leaves ==> x.Tip?
  {
    forall i, j :: 0 <= i < j < |leaves| ==> leaves[i].txid != leaves[j].txid
  }

  lemma {:induction false} EqualRootsShareFirstLeaf(h: Combine, t: Tree, u: Tree, level: nat)
    requires CollisionFree(h)
    requires Perfect(t, level) && Perfect(u, level)
    requires Root(h, t) == Root(h, u)
    ensures Leaves(t)[0].txid == Leaves(u)[0].txid
  {
    if level > 0 {
      EqualRootsShareFirstLeaf(h, t.left, u.left, level - 1);
      assert Leaves(t)[0] == Leaves(t.left)[0];
      assert Leaves(u)[0] == Leaves(u.left)[0];
    }
  }

  lemma {:induction false} RootNonzero(h: Combine, t: Tree)
    requires CollisionFree(h)
    requires forall x :: x in Leaves(t) ==> x.txid != ZERO
    ensures Root(h, t) != ZERO
  {
    match t
    case Tip(_, _) => assert t in Leaves(t);
    case Node(_, _) =>
  }
}

/** What it proves that bitcoin/BRMerkleBlock.c finds the root in a block's header to be that of the
    partial tree received with it, and what it does not prove. */
module MerkleInclusion {
  import opened Wrappers
  import opened MerkleTree
  import opened MerkleProof
  import opened MerkleTheorems

  // ----- the tree whose root is compared

  /** What the root traversal makes of `t`: the first fork found to be unsound counts as missing,
      and so does everything read after it.  The flag says whether that happened. */
  function Cut(h: Combine, t: Branch): (Branch, bool) {
    match t
    case Fork(l, r) =>
      var (l', cutLeft) := Cut(h, l);
      var (r', cutRight) := if cutLeft then (Missing, true) else Cut(h, r);
      if Value(h, l') == ZERO || Value(h, l') == Value(h, r') then (Missing, true)
      else (Fork(l', r'), cutLeft || cutRight)
    case _ => (t, false)
  }

  /** The root returned is that of the cut tree, whether or not the traversal was poisoned. */
  lemma {:induction false} RootIsOfCut(h: Combine, s: Stream, c: Cursor, level: nat)
    requires c.hashIdx <= |s.hashes| < SIZE_MAX
    ensures var t := Parse(s, c, level);
            var (t', cut) := Cut(h, t.tree);
            && RootFrom(h, s, c, level).md == Value(h, t')
            && (if cut then RootFrom(h, s, c, level).at.hashIdx == SIZE_MAX
                else RootFrom(h, s, c, level).at == t.at && t' == t.tree)
            && t.at.hashIdx <= |s.hashes|
    decreases level
  {
    hide Parse, RootFrom;
    RootStep(h, s, c, level);
    ParseUnfold(s, c, level);
    if MayRead(s, c) && s.bits[c.flagIdx] && level > 0 {
      var c1 := Cursor(c.hashIdx, c.flagIdx + 1);
      var left := Parse(s, c1, level - 1);
      RootIsOfCut(h, s, c1, level - 1);
      RootIsOfCut(h, s, left.at, level - 1);
      if Cut(h, left.tree).1 {
        RootStep(h, s, RootFrom(h, s, c1, level - 1).at, level - 1);
      }
    }
  }

  /** Cutting leaves a sound tree, keeps a sound tree whole, and loses matches only from the end. */
  lemma {:induction false} CutIsSound(h: Combine, t: Branch, level: nat)
    requires LeavesAt(t, level)
    ensures var (t', cut) := Cut(h, t);
            && Sound(h, t') && LeavesAt(t', level)
            && Matches(t') <= Matches(t)
            && (!cut <==> Sound(h, t)) && (!cut ==> t' == t)
  {
    match t
    case Fork(l, r) =>
      CutIsSound(h, l, level - 1);
      CutIsSound(h, r, level - 1);
    case _ =>
  }
  // ----- what a matching root proves

  /** `a` is obtained from `b` by deleting elements. */
  ghost predicate Subsequence<T>(a: seq<T>, b: seq<T>) {
    a == [] || (b != [] && ((a[0] == b[0] && Subsequence(a[1..], b[1..])) || Subsequence(a, b[1..])))
  }

  lemma {:induction false} SubsequencesConcatenate<T>(a: seq<T>, b: seq<T>, c: seq<T>, d: seq<T>)
    requires Subsequence(a, b) && Subsequence(c, d)
    ensures Subsequence(a + c, b + d)
    decreases |b|
  {
    if b == [] {
      assert a + c == c && b + d == d;
    } else if a == [] {
      assert a + c == c && (b + d)[1..] == b[1..] + d;
      SubsequencesConcatenate([], b[1..], c, d);
      assert [] + c == c;
    } else {
      assert (b + d)[1..] == b[1..] + d && (a + c)[1..] == a[1..] + c;
      if a[0] == b[0] && Subsequence(a[1..], b[1..]) {
        SubsequencesConcatenate(a[1..], b[1..], c, d);
      } else {
        SubsequencesConcatenate(a, b[1..], c, d);
      }
    }
  }

  function IdOf(t: Tree): Hash
    requires t.Tip?
  {
    t.txid
  }

  function Txids(leaves: seq<Tree>): seq<Hash>
    requires forall x :: x in leaves ==> x.Tip?
  {
    seq(|leaves|, i requires 0 <= i < |leaves| => IdOf(leaves[i]))
  }

  lemma {:induction false} ZeroValueMatchesNothing(h: Combine, t: Branch)
    requires CollisionFree(h) && Value(h, t) == ZERO
    ensures Matches(t) == [] || ZERO in Matches(t)
  {
    match t
    case Fork(_, _) => assert false;
    case _ =>
  }

  /** A sound partial tree with the root of the full tree reports only transactions of the full
      tree, in order; unless it reports the zero hash, which the decoder takes for a missing child. */
  lemma {:induction false} ReportedAreLeaves(h: Combine, t: Branch, full: Tree, level: nat)
    requires CollisionFree(h)
    requires Sound(h, t) && LeavesAt(t, level) && Perfect(full, level)
    requires Value(h, t) == Root(h, full)
    requires ZERO !in Matches(t)
    ensures Subsequence(Matches(t), Txids(Leaves(full)))
    decreases level
  {
    match t
    case Missing =>
    case Stub(_) =>
    case Leaf(_) =>
      assert Txids(Leaves(full))[1..] == [];
    case Fork(l, r) =>
      ReportedAreLeaves(h, l, full.left, level - 1);
      if full.right.None? || Value(h, r) == ZERO {
        ZeroValueMatchesNothing(h, r);
        assert Matches(t) == Matches(l) + [];
      } else {
        ReportedAreLeaves(h, r, full.right.value, level - 1);
      }
      if full.right.Some? {
        assert Txids(Leaves(full)) == Txids(Leaves(full.left)) + Txids(Leaves(full.right.value));
        SubsequencesConcatenate(Matches(l), Txids(Leaves(full.left)), Matches(r), Txids(Leaves(full.right.value)));
      } else {
        assert Matches(t) == Matches(l);
      }
  }

  /** A block is accepted with the root of `txids`, at the right height.  Whatever is reported before
      the first unsound fork is a transaction of that list, in order, unless it is the zero hash;
      and all that is reported comes before it if the hash cursor was left in place. */
  lemma AcceptedPrefixIsReal(h: Combine, b: Block, txids: seq<Hash>)
    requires CollisionFree(h) && |b.hashes| < SIZE_MAX
    requires txids != [] && Levels(b.totalTx) == Levels(|txids|)
    requires Accepts(h, b, MerkleRoot(h, txids)) && b.totalTx > 0
    ensures var known := Matches(Cut(h, TreeOf(b)).0);
            && known <= Matches(TreeOf(b))
            && (ZERO !in known ==> Subsequence(known, txids))
            && (RootOf(h, b).at.hashIdx != SIZE_MAX ==> known == Matches(TreeOf(b)))
  {
    var unmatched := seq(|txids|, i => false);
    RootIsOfCut(h, View(b), START, Levels(b.totalTx));
    ParseIsDepthFirst(View(b), START, Levels(b.totalTx));
    CutIsSound(h, TreeOf(b), Levels(b.totalTx));
    BlockTreeRoot(h, txids, unmatched);
    BlockTreeShape(txids, unmatched);
    if ZERO !in Matches(Cut(h, TreeOf(b)).0) {
      ReportedAreLeaves(h, Cut(h, TreeOf(b)).0, BlockTree(txids, unmatched), Levels(|txids|));
      assert Txids(Leaves(BlockTree(txids, unmatched))) == txids;
    }
  }

  // ----- exactly when a message is a proof

  /** `t` is a part of `full`: every hash it carries is that of the node in its place, matches are
      transactions, and only what does not exist is missing. */
  ghost predicate IsPartOf(h: Combine, t: Branch, full: Tree) {
    match t
    case Missing => false
    case Stub(x) => x == Root(h, full)
    case Leaf(x) => full.Tip? && x == full.txid
    case Fork(l, r) =>
      && full.Node? && IsPartOf(h, l, full.left)
      && if full.right.None? then r == Missing else IsPartOf(h, r, full.right.value)
  }

  ghost predicate RealTxids(leaves: seq<Tree>)
    requires forall x :: x in leaves ==> x.Tip?
  {
    DistinctTxids(leaves) && forall x :: x in leaves ==> x.txid != ZERO
  }

  lemma RealHalves(t: Tree)
    requires t.Node? && RealTxids(Leaves(t))
    ensures RealTxids(Leaves(t.left)) && (t.right.Some? ==> RealTxids(Leaves(t.right.value)))
    ensures t.right.Some? ==> Leaves(t.left)[0].txid != Leaves(t.right.value)[0].txid
  {
    var a := Leaves(t.left);
    if t.right.Some? {
      var b := Leaves(t.right.value);
      assert Leaves(t) == a + b;
      assert forall i :: 0 <= i < |a| ==> (a + b)[i] == a[i];
      assert forall i :: 0 <= i < |b| ==> (a + b)[|a| + i] == b[i];
      assert forall x :: x in a || x in b ==> x in a + b;
    }
  }

  /** The two children of a real node have different roots. */
  lemma ChildrenDiffer(h: Combine, t: Tree, level: nat)
    requires CollisionFree(h) && t.Node? && t.right.Some? && Perfect(t, level) && RealTxids(Leaves(t))
    ensures Root(h, t.left) != Root(h, t.right.value)
  {
    RealHalves(t);
    if Root(h, t.left) == Root(h, t.right.value) {
      EqualRootsShareFirstLeaf(h, t.left, t.right.value, level - 1);
    }
  }

  /** Parts of a real tree are sound, have its root, and mention no zero. */
  lemma {:induction false} PartIsSound(h: Combine, t: Branch, full: Tree, level: nat)
    requires CollisionFree(h) && Perfect(full, level) && RealTxids(Leaves(full))
    requires IsPartOf(h, t, full)
    ensures Sound(h, t) && Value(h, t) == Root(h, full) && ZERO !in Hashes(t)
    decreases level
  {
    RootNonzero(h, full);
    if t.Fork? {
      RealHalves(full);
      RootNonzero(h, full.left);
      PartIsSound(h, t.left, full.left, level - 1);
      if full.right.Some? {
        PartIsSound(h, t.right, full.right.value, level - 1);
        ChildrenDiffer(h, full, level);
        RootNonzero(h, full.right.value);
      }
    }
  }

  /** A sound tree without zeros that has the root of a real tree of its height is a part of it. */
  lemma {:induction false} SoundIsPart(h: Combine, t: Branch, full: Tree, level: nat)
    requires CollisionFree(h) && Perfect(full, level) && RealTxids(Leaves(full))
    requires Sound(h, t) && LeavesAt(t, level) && Value(h, t) == Root(h, full) && ZERO !in Hashes(t)
    ensures IsPartOf(h, t, full)
    decreases level
  {
    RootNonzero(h, full);
    if t.Fork? {
      RealHalves(full);
      SoundIsPart(h, t.left, full.left, level - 1);
      if full.right.None? || Value(h, t.right) == ZERO {
        if full.right.Some? {
          ChildrenDiffer(h, full, level);
        }
        ZeroIsMissing(h, t.right);
      } else {
        SoundIsPart(h, t.right, full.right.value, level - 1);
      }
    }
  }

  lemma ZeroIsMissing(h: Combine, t: Branch)
    requires CollisionFree(h) && Value(h, t) == ZERO && ZERO !in Hashes(t)
    ensures t == Missing
  {
    match t
    case Fork(_, _) => assert false;
    case _ =>
  }

  /** A part with a match has its leaves where those of the whole tree are. */
  lemma {:induction false} PartHeight(h: Combine, t: Branch, full: Tree, level: nat, height: nat)
    requires IsPartOf(h, t, full) && LeavesAt(t, level) && Perfect(full, height) && Matches(t) != []
    ensures level == height
    decreases height
  {
    if t.Fork? {
      if Matches(t.left) != [] {
        PartHeight(h, t.left, full.left, level - 1, height - 1);
      } else {
        assert Matches(t) == Matches(t.right);
        PartHeight(h, t.right, full.right.value, level - 1, height - 1);
      }
    }
  }

  /** What a message that reports something is exactly: a part of the tree over a block's distinct
      transactions iff its root is the block's, no unsound fork was met, no hash is zero, and its
      count gives the right height.  Of these `Accepts` checks the first, if the count is positive. */
  lemma ProofIsExact(h: Combine, b: Block, txids: seq<Hash>)
    requires CollisionFree(h) && |b.hashes| < SIZE_MAX
    requires txids != [] && ZERO !in txids && forall i, j :: 0 <= i < j < |txids| ==> txids[i] != txids[j]
    requires Matches(TreeOf(b)) != []
    ensures IsPartOf(h, TreeOf(b), WholeTree(txids))
       <==> (&& RootOf(h, b).md == MerkleRoot(h, txids) && RootOf(h, b).at.hashIdx != SIZE_MAX
             && ZERO !in Hashes(TreeOf(b)) && Levels(b.totalTx) == Levels(|txids|))
    ensures IsPartOf(h, TreeOf(b), WholeTree(txids)) ==> Subsequence(Matches(TreeOf(b)), txids)
  {
    hide IsPartOf, Parse, RootFrom, Sound, Matches, Hashes;
    var t, full, level := TreeOf(b), WholeTree(txids), Levels(b.totalTx);
    DecodersAgree(h, b);
    ParseIsDepthFirst(View(b), START, level);
    WholeIsReal(h, txids);
    if IsPartOf(h, t, full) {
      PartIsSound(h, t, full, Levels(|txids|));
      PartHeight(h, t, full, level, Levels(|txids|));
      MatchesAreHashes(t);
      ReportedAreLeaves(h, t, full, level);
    } else if RootOf(h, b).md == MerkleRoot(h, txids) && Sound(h, t) && ZERO !in Hashes(t) && level == Levels(|txids|) {
      SoundIsPart(h, t, full, level);
    }
  }

  /** The tree over all transactions. */
  function WholeTree(txids: seq<Hash>): Tree
    requires txids != []
  {
    BlockTree(txids, seq(|txids|, i => false))
  }

  lemma WholeIsReal(h: Combine, txids: seq<Hash>)
    requires txids != [] && ZERO !in txids && forall i, j :: 0 <= i < j < |txids| ==> txids[i] != txids[j]
    ensures Root(h, WholeTree(txids)) == MerkleRoot(h, txids)
    ensures Perfect(WholeTree(txids), Levels(|txids|)) && RealTxids(Leaves(WholeTree(txids)))
    ensures Txids(Leaves(WholeTree(txids))) == txids
  {
    var unmatched := seq(|txids|, i => false);
    BlockTreeRoot(h, txids, unmatched);
    BlockTreeShape(txids, unmatched);
    assert Leaves(WholeTree(txids)) == Tips(txids, unmatched);
    forall x | x in Tips(txids, unmatched) ensures x.txid != ZERO {
      assert x.txid in txids;
    }
  }

  lemma {:induction false} MatchesAreHashes(t: Branch)
    ensures forall x :: x in Matches(t) ==> x in Hashes(t)
  {
    if t.Fork? {
      MatchesAreHashes(t.left);
      MatchesAreHashes(t.right);
    }
  }

  // ----- accepted messages that are no proof

  /** A zero hash: three transactions, and a fourth "matched" hash of zero where the missing right
      child should be; the root is right, the reported zero is no transaction. */
  lemma ZeroHashIsReported(h: Combine, a: Hash, b: Hash, c: Hash)
    requires CollisionFree(h)
    requires a != ZERO && c != ZERO && b != ZERO && a != b
    ensures var example := Block(3, [h(a, b), c, ZERO], [0x15]);
            && Accepts(h, example, MerkleRoot(h, [a, b, c]))
            && RootOf(h, example).at.hashIdx != SIZE_MAX
            && Matches(TreeOf(example)) == [ZERO]
  {
    var example := Block(3, [h(a, b), c, ZERO], [0x15]);
    var s := ZeroLeafStream(h(a, b), c);
    assert Levels(3) == 1 + Levels(2) == 2;
    ZeroLeafTree(s, h(a, b), c);
    DecodersAgree(h, example);
    ZeroLeafValue(h, a, b, c);
  }

  /** An unsound fork on the right: five transactions, and a fork of `x` with itself beside the last
      one.  It is taken for a missing child, the root is right, and `x` is reported, whatever it is;
      should it be a transaction of the block, then only by chance. */
  lemma AnythingIsReported(h: Combine, a: Hash, b: Hash, c: Hash, d: Hash, e: Hash, x: Hash)
    requires CollisionFree(h) && h(a, b) != h(c, d) && e != ZERO && x != ZERO
    requires h(h(a, b), h(c, d)) != h(h(e, e), h(e, e))
    ensures var example := Block(5, [h(h(a, b), h(c, d)), h(e, e), x, x], [0x35]);
            && Accepts(h, example, MerkleRoot(h, [a, b, c, d, e]))
            && RootOf(h, example).at.hashIdx == SIZE_MAX
            && Matches(TreeOf(example)) == [x]
            && (Subsequence(Matches(TreeOf(example)), [a, b, c, d, e]) <==> x in [a, b, c, d, e])
  {
    var example := Block(5, [h(h(a, b), h(c, d)), h(e, e), x, x], [0x35]);
    var s := AnythingStream(h(h(a, b), h(c, d)), h(e, e), x);
    assert Levels(5) == 1 + Levels(3) == 2 + Levels(2) == 3;
    AnythingTree(s, h(h(a, b), h(c, d)), h(e, e), x);
    RootIsOfCut(h, View(example), START, 3);
    AnythingValue(h, a, b, c, d, e, x);
    SingleIsMember(x, [a, b, c, d, e]);
  }

  lemma {:induction false} SingleIsMember<T>(x: T, s: seq<T>)
    ensures Subsequence([x], s) <==> x in s
  {
    if s != [] {
      SingleIsMember(x, s[1..]);
    }
  }

  lemma ZeroLeafValue(h: Combine, a: Hash, b: Hash, c: Hash)
    requires CollisionFree(h)
    requires c != ZERO && a != b
    ensures var t := Fork(Stub(h(a, b)), Fork(Stub(c), Leaf(ZERO)));
            Sound(h, t) && Value(h, t) == MerkleRoot(h, [a, b, c]) && Matches(t) == [ZERO]
  {
    var inner := Fork(Stub(c), Leaf(ZERO));
    assert Sound(h, inner) && Value(h, inner) == h(c, c);
    assert HashRowAbove(h, [a, b, c]) == [h(a, b)] + HashRowAbove(h, [a, b, c][2..]);
    assert [a, b, c][2..] == [c];
    assert HashRowAbove(h, [a, b, c]) == [h(a, b), h(c, c)];
    var top := h(h(a, b), h(c, c));
    assert HashRowAbove(h, [h(a, b), h(c, c)]) == [top];
    assert MerkleRoot(h, [a, b, c]) == MerkleRoot(h, [h(a, b), h(c, c)]) == MerkleRoot(h, [top]) == top;
    assert Matches(inner) == [ZERO];
  }

  lemma ZeroLeafStream(x: Hash, c: Hash) returns (s: Stream)
    ensures s == View(Block(3, [x, c, ZERO], [0x15]))
    ensures |s.bits| == 8 && s.bits[0] && !s.bits[1] && s.bits[2] && !s.bits[3] && s.bits[4]
  {
    s := View(Block(3, [x, c, ZERO], [0x15]));
  }

  lemma ZeroLeafTree(s: Stream, x: Hash, c: Hash)
    requires |s.bits| == 8 && s.bits[0] && !s.bits[1] && s.bits[2] && !s.bits[3] && s.bits[4]
    requires s.hashes == [x, c, ZERO]
    ensures Parse(s, START, 2).tree == Fork(Stub(x), Fork(Stub(c), Leaf(ZERO)))
  {
    hide Parse;
    ParseUnfold(s, START, 2);
    ParseUnfold(s, Cursor(0, 1), 1);
    ParseUnfold(s, Cursor(1, 2), 1);
    ParseUnfold(s, Cursor(1, 3), 0);
    ParseUnfold(s, Cursor(2, 4), 0);
  }

  lemma AnythingStream(y: Hash, z: Hash, x: Hash) returns (s: Stream)
    ensures s == View(Block(5, [y, z, x, x], [0x35])) && s.hashes == [y, z, x, x]
    ensures |s.bits| == 8 && s.bits[0] && !s.bits[1] && s.bits[2] && !s.bits[3] && s.bits[4] && s.bits[5] && !s.bits[6]
  {
    s := View(Block(5, [y, z, x, x], [0x35]));
  }

  lemma AnythingTree(s: Stream, y: Hash, z: Hash, x: Hash)
    requires |s.bits| == 8 && s.bits[0] && !s.bits[1] && s.bits[2] && !s.bits[3] && s.bits[4] && s.bits[5] && !s.bits[6]
    requires s.hashes == [y, z, x, x]
    ensures Parse(s, START, 3).tree == Fork(Stub(y), Fork(Stub(z), Fork(Leaf(x), Stub(x))))
  {
    hide Parse;
    ParseUnfold(s, START, 3);
    ParseUnfold(s, Cursor(0, 1), 2);
    ParseUnfold(s, Cursor(1, 2), 2);
    ParseUnfold(s, Cursor(1, 3), 1);
    ParseUnfold(s, Cursor(2, 4), 1);
    ParseUnfold(s, Cursor(2, 5), 0);
    ParseUnfold(s, Cursor(3, 6), 0);
  }

  lemma AnythingValue(h: Combine, a: Hash, b: Hash, c: Hash, d: Hash, e: Hash, x: Hash)
    requires CollisionFree(h) && h(a, b) != h(c, d) && e != ZERO && x != ZERO
    requires h(h(a, b), h(c, d)) != h(h(e, e), h(e, e))
    ensures var t := Fork(Stub(h(h(a, b), h(c, d))), Fork(Stub(h(e, e)), Fork(Leaf(x), Stub(x))));
            && Cut(h, t).1 && Value(h, Cut(h, t).0) == MerkleRoot(h, [a, b, c, d, e])
            && Matches(t) == [x]
  {
    var fork := Fork(Leaf(x), Stub(x));
    var inner := Fork(Stub(h(e, e)), fork);
    assert Matches(fork) == [x] && Matches(inner) == [x];
    assert Cut(h, fork) == (Missing, true);
    assert Cut(h, inner) == (Fork(Stub(h(e, e)), Missing), true);
    RowsOfFive(h, a, b, c, d, e);
  }

  lemma RowsOfFive(h: Combine, a: Hash, b: Hash, c: Hash, d: Hash, e: Hash)
    ensures MerkleRoot(h, [a, b, c, d, e]) == h(h(h(a, b), h(c, d)), h(h(e, e), h(e, e)))
  {
    var row1, row2 := [h(a, b), h(c, d), h(e, e)], [h(h(a, b), h(c, d)), h(h(e, e), h(e, e))];
    assert [a, b, c, d, e][2..] == [c, d, e] && [c, d, e][2..] == [e];
    assert HashRowAbove(h, [e]) == [h(e, e)];
    assert HashRowAbove(h, [c, d, e]) == [h(c, d)] + HashRowAbove(h, [e]);
    assert HashRowAbove(h, [a, b, c, d, e]) == [h(a, b)] + HashRowAbove(h, [c, d, e]) == row1;
    assert row1[2..] == [h(e, e)] && HashRowAbove(h, [h(e, e)]) == [h(h(e, e), h(e, e))];
    assert HashRowAbove(h, row1) == [h(h(a, b), h(c, d))] + HashRowAbove(h, row1[2..]) == row2;
    RowsOfTwo(h, row2[0], row2[1]);
  }

  lemma RowsOfTwo(h: Combine, a: Hash, b: Hash)
    ensures MerkleRoot(h, [a, b]) == h(a, b)
  {
    assert [a, b][2..] == [];
    assert HashRowAbove(h, [a, b]) == [h(a, b)] + HashRowAbove(h, []);
  }

  /** A wrong count: as if there were two transactions, an inner node of four is reported. */
  lemma InnerNodeIsReported(h: Combine, a: Hash, b: Hash, c: Hash, d: Hash)
    requires CollisionFree(h) && h(a, b) != h(c, d)
    ensures var example := Block(2, [h(a, b), h(c, d)], [0x03]);
            && Accepts(h, example, MerkleRoot(h, [a, b, c, d]))
            && RootOf(h, example).at.hashIdx != SIZE_MAX
            && Matches(TreeOf(example)) == [h(a, b)]
  {
    var y, z := h(a, b), h(c, d);
    var example := Block(2, [y, z], [0x03]);
    var s := View(example);
    assert s.bits[0] && s.bits[1] && !s.bits[2] by {
      InnerNodeBits(s, y, z);
    }
    assert Levels(2) == 1 + Levels(1) == 1;
    InnerNodeTree(s, y, z);
    DecodersAgree(h, example);
    assert Matches(Fork(Leaf(y), Stub(z))) == [y];
    assert [a, b, c, d][2..] == [c, d] && [c, d][2..] == [];
    assert HashRowAbove(h, [c, d]) == [z] + HashRowAbove(h, []);
    assert HashRowAbove(h, [a, b, c, d]) == [y] + HashRowAbove(h, [c, d]) == [y, z];
    RowsOfTwo(h, y, z);
  }

  lemma InnerNodeBits(s: Stream, y: Hash, z: Hash)
    requires s == View(Block(2, [y, z], [0x03]))
    ensures |s.bits| == 8 && s.bits[0] && s.bits[1] && !s.bits[2]
  {
  }

  lemma InnerNodeTree(s: Stream, y: Hash, z: Hash)
    requires |s.bits| == 8 && s.bits[0] && s.bits[1] && !s.bits[2] && s.hashes == [y, z]
    ensures Parse(s, START, 1).tree == Fork(Leaf(y), Stub(z))
  {
    hide Parse;
    ParseUnfold(s, START, 1);
    ParseUnfold(s, Cursor(0, 1), 0);
    ParseUnfold(s, Cursor(1, 2), 0);
  }

  /** A count of zero: the root is not looked at, and a single hash is reported. */
  lemma NoCountNoCheck(h: Combine, x: Hash, merkleRoot: Hash)
    ensures var example := Block(0, [x], [0x01]);
            Accepts(h, example, merkleRoot) && Matches(TreeOf(example)) == [x]
  {
    var s := View(Block(0, [x], [0x01]));
    assert s.bits[0];
    ParseUnfold(s, START, 0);
  }
}

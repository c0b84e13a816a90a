/** The BIP 37 encoder (section "Partial Merkle branch format") and the proof that the decoders
    of bitcoin/BRMerkleBlock.c invert it. */
module MerkleRoundTrip {
  import opened Wrappers
  import opened MerkleTree
  import opened MerkleProof
  import opened MerkleTheorems

  // ----- encoder

  predicate AnyMatch(t: Tree) {
    match t
    case Tip(_, m) => m
    case Node(l, None) => AnyMatch(l)
    case Node(l, Some(r)) => AnyMatch(l) || AnyMatch(r)
  }

  /** Subtrees without a match are cut down to their hash. */
  function Prune(h: Combine, t: Tree): Branch {
    match t
    case Tip(txid, m) => if m then Leaf(txid) else Stub(txid)
    case Node(l, r) =>
      if !AnyMatch(t) then Stub(Root(h, t))
      else if r.None? then Fork(Prune(h, l), Missing)
      else Fork(Prune(h, l), Prune(h, r.value))
  }

  /** Eight flags to a byte, least significant bit first. */
  function PackByte(bits: seq<bool>): bv8 {
    (if |bits| > 0 && bits[0] then 0x01 else 0) | (if |bits| > 1 && bits[1] then 0x02 else 0)
    | (if |bits| > 2 && bits[2] then 0x04 else 0) | (if |bits| > 3 && bits[3] then 0x08 else 0)
    | (if |bits| > 4 && bits[4] then 0x10 else 0) | (if |bits| > 5 && bits[5] then 0x20 else 0)
    | (if |bits| > 6 && bits[6] then 0x40 else 0) | (if |bits| > 7 && bits[7] then 0x80 else 0)
  }

  function Pack(bits: seq<bool>): (r: seq<bv8>)
    ensures |r| == (|bits| + 7) / 8
    decreases |bits|
  {
    if bits == [] then [] else [PackByte(bits)] + Pack(if |bits| <= 8 then [] else bits[8..])
  }

  /** The merkleblock message for a block with transactions `txids`, of which `matched` matched. */
  function Encode(h: Combine, txids: seq<Hash>, matched: seq<bool>): Block
    requires |txids| == |matched| > 0
  {
    var t := Prune(h, BlockTree(txids, matched));
    Block(|txids|, Hashes(t), Pack(Bits(t)))
  }

  function Selected(leaves: seq<Tree>): seq<Hash> {
    if leaves == [] then []
    else (if leaves[0].Tip? && leaves[0].matched then [leaves[0].txid] else []) + Selected(leaves[1..])
  }

  // ----- packing

  lemma PackedBit(bits: seq<bool>, k: nat)
    requires k < 8
    ensures PackByte(bits) & Mask(k) != 0 <==> k < |bits| && bits[k]
  {
  }

  lemma {:induction false} PackedByteAt(bits: seq<bool>, j: nat)
    requires 8 * j < |bits|
    ensures Pack(bits)[j] == PackByte(bits[8 * j..])
    decreases j
  {
    if j == 0 {
      assert bits[0..] == bits;
    } else {
      PackedByteAt(bits[8..], j - 1);
      assert bits[8..][8 * (j - 1)..] == bits[8 * j..];
    }
  }

  lemma PackedBits(bits: seq<bool>, i: nat)
    requires i < |bits|
    ensures FlagBit(Pack(bits), i) == bits[i]
  {
    hide Mask, PackByte;
    var j := i / 8;
    PackedByteAt(bits, j);
    PackedBit(bits[8 * j..], i % 8);
    assert bits[8 * j..][i % 8] == bits[i];
  }

  // ----- decoding what was written

  /** Nothing is missing except, if `last`, at the very end. */
  ghost predicate TailOnly(t: Branch, last: bool) {
    match t
    case Fork(l, Missing) => last && !l.Missing? && TailOnly(l, true)
    case Fork(l, r) => !l.Missing? && TailOnly(l, false) && TailOnly(r, last)
    case _ => true
  }

  lemma {:induction false} NonemptyHashes(t: Branch, last: bool)
    requires !t.Missing? && TailOnly(t, last)
    ensures |Hashes(t)| > 0 && |Bits(t)| > 0
  {
    match t
    case Fork(l, Missing) => NonemptyHashes(l, true);
    case Fork(l, r) => NonemptyHashes(l, false);
    case _ =>
  }

  /** Where the cursors stand after `t`. */
  function End(c: Cursor, t: Branch): Cursor {
    Cursor(c.hashIdx + |Hashes(t)|, c.flagIdx + |Bits(t)|)
  }

  /** `a` stands in `s` from index `i` on. */
  ghost predicate Slice<T>(s: seq<T>, i: nat, a: seq<T>) {
    i + |a| <= |s| && forall k :: 0 <= k < |a| ==> s[i + k] == a[k]
  }

  lemma SplitSlice<T>(s: seq<T>, i: nat, a: seq<T>, b: seq<T>)
    requires Slice(s, i, a + b)
    ensures Slice(s, i, a) && Slice(s, i + |a|, b)
  {
    forall k | 0 <= k < |a| ensures s[i + k] == a[k] {
      assert s[i + k] == (a + b)[k];
    }
    forall k | 0 <= k < |b| ensures s[i + |a| + k] == b[k] {
      assert s[i + (|a| + k)] == (a + b)[|a| + k];
    }
  }

  lemma SliceHead<T>(s: seq<T>, i: nat, a: seq<T>)
    requires Slice(s, i, a) && |a| > 0
    ensures i < |s| && s[i] == a[0]
  {
    assert s[i + 0] == a[0];
  }

  /** The depth-first form of `t` stands in the streams at `c`. */
  ghost predicate Holds(s: Stream, c: Cursor, t: Branch) {
    Slice(s.bits, c.flagIdx, Bits(t)) && Slice(s.hashes, c.hashIdx, Hashes(t))
  }

  lemma HoldsFork(s: Stream, c: Cursor, l: Branch, r: Branch)
    requires Holds(s, c, Fork(l, r))
    ensures c.flagIdx < |s.bits| && s.bits[c.flagIdx]
    ensures Holds(s, Cursor(c.hashIdx, c.flagIdx + 1), l)
    ensures Holds(s, End(Cursor(c.hashIdx, c.flagIdx + 1), l), r)
    ensures End(End(Cursor(c.hashIdx, c.flagIdx + 1), l), r) == End(c, Fork(l, r))
  {
    hide Slice;
    assert Bits(Fork(l, r)) == [true] + (Bits(l) + Bits(r));
    SliceHead(s.bits, c.flagIdx, Bits(Fork(l, r)));
    SplitSlice(s.bits, c.flagIdx, [true], Bits(l) + Bits(r));
    SplitSlice(s.bits, c.flagIdx + 1, Bits(l), Bits(r));
    SplitSlice(s.hashes, c.hashIdx, Hashes(l), Hashes(r));
  }

  lemma HoldsLeaf(s: Stream, c: Cursor, t: Branch)
    requires (t.Stub? || t.Leaf?) && Holds(s, c, t)
    ensures MayRead(s, c) && s.bits[c.flagIdx] == t.Leaf? && s.hashes[c.hashIdx] == t.hash
    ensures End(c, t) == Cursor(c.hashIdx + 1, c.flagIdx + 1)
  {
    SliceHead(s.bits, c.flagIdx, Bits(t));
    SliceHead(s.hashes, c.hashIdx, Hashes(t));
  }

  /** Reading a tree back: a missing right child is recognised because the hashes have run out,
      which happens exactly when it is missing. */
  lemma {:induction false} ParseInverts(s: Stream, c: Cursor, level: nat, t: Branch, last: bool)
    requires !t.Missing? && TailOnly(t, last) && LeavesAt(t, level) && Holds(s, c, t)
    requires last ==> End(c, t).hashIdx == |s.hashes|
    ensures Parse(s, c, level) == Parsed(t, End(c, t))
    decreases level
  {
    hide Parse, Holds;
    ParseUnfold(s, c, level);
    match t
    case Stub(_) => HoldsLeaf(s, c, t);
    case Leaf(_) => HoldsLeaf(s, c, t);
    case Fork(l, r) =>
      var c1 := Cursor(c.hashIdx, c.flagIdx + 1);
      HoldsFork(s, c, l, r);
      NonemptyHashes(t, last);
      assert c.hashIdx < |s.hashes| by { HoldsWithin(s, c, t); }
      ParseInverts(s, c1, level - 1, l, r.Missing? && last);
      if r.Missing? {
        ParseUnfold(s, End(c1, l), level - 1);
      } else {
        ParseInverts(s, End(c1, l), level - 1, r, last);
      }
  }

  lemma HoldsWithin(s: Stream, c: Cursor, t: Branch)
    requires Holds(s, c, t)
    ensures c.hashIdx + |Hashes(t)| <= |s.hashes|
  {
  }

  // ----- what pruning keeps

  lemma {:induction false} PruneShape(h: Combine, t: Tree, level: nat, last: bool)
    requires Perfect(t, level) && GapsOnSpine(t, last)
    ensures !Prune(h, t).Missing? && TailOnly(Prune(h, t), last) && LeavesAt(Prune(h, t), level)
    ensures |Hashes(Prune(h, t))| <= |Leaves(t)|
  {
    match t
    case Tip(_, _) =>
    case Node(l, None) => PruneShape(h, l, level - 1, true);
    case Node(l, Some(r)) =>
      PruneShape(h, l, level - 1, false);
      PruneShape(h, r, level - 1, last);
  }

  lemma {:induction false} SelectedConcat(a: seq<Tree>, b: seq<Tree>)
    ensures Selected(a + b) == Selected(a) + Selected(b)
  {
    if a == [] {
      assert a + b == b;
    } else {
      assert (a + b)[1..] == a[1..] + b;
      SelectedConcat(a[1..], b);
    }
  }

  lemma {:induction false} PruneMatches(h: Combine, t: Tree)
    ensures Matches(Prune(h, t)) == Selected(Leaves(t))
    ensures !AnyMatch(t) ==> Selected(Leaves(t)) == []
  {
    match t
    case Tip(_, _) => assert Leaves(t)[1..] == [];
    case Node(l, None) => PruneMatches(h, l);
    case Node(l, Some(r)) =>
      PruneMatches(h, l);
      PruneMatches(h, r);
      SelectedConcat(Leaves(l), Leaves(r));
  }

  /** Pruning keeps the root, and distinct nonzero transactions make the pruned tree sound. */
  lemma {:induction false} PruneSound(h: Combine, t: Tree, level: nat)
    requires CollisionFree(h) && Perfect(t, level)
    requires DistinctTxids(Leaves(t)) && forall x :: x in Leaves(t) ==> x.txid != ZERO
    ensures Value(h, Prune(h, t)) == Root(h, t) != ZERO
    ensures Sound(h, Prune(h, t))
  {
    match t
    case Tip(_, _) => assert t in Leaves(t);
    case Node(l, None) => PruneSound(h, l, level - 1);
    case Node(l, Some(r)) =>
      PartsOfDistinct(Leaves(l), Leaves(r));
      PruneSound(h, l, level - 1);
      PruneSound(h, r, level - 1);
      assert Leaves(l)[0].txid != Leaves(r)[0].txid by {
        assert Leaves(t)[0].txid != Leaves(t)[|Leaves(l)|].txid;
      }
      if Root(h, l) == Root(h, r) {
        EqualRootsShareFirstLeaf(h, l, r, level - 1);
        assert false;
      }
  }

  lemma PartsOfDistinct(a: seq<Tree>, b: seq<Tree>)
    requires forall x :: x in a + b ==> x.Tip?
    requires DistinctTxids(a + b)
    ensures forall x :: x in a || x in b ==> x in a + b
    ensures DistinctTxids(a) && DistinctTxids(b)
  {
    forall i, j | 0 <= i < j < |a| ensures a[i].txid != a[j].txid {
      assert a[i] == (a + b)[i] && a[j] == (a + b)[j];
    }
    forall i, j | 0 <= i < j < |b| ensures b[i].txid != b[j].txid {
      assert b[i] == (a + b)[|a| + i] && b[j] == (a + b)[|a| + j];
    }
  }

  // ----- the round trip

  /** The decoders read back exactly the tree that was encoded. */
  lemma EncodedTree(h: Combine, txids: seq<Hash>, matched: seq<bool>)
    requires |txids| == |matched| > 0
    ensures var t := Prune(h, BlockTree(txids, matched));
            var b := Encode(h, txids, matched);
            && Parse(View(b), START, Levels(b.totalTx)) == Parsed(t, Cursor(|b.hashes|, |Bits(t)|))
            && 8 * |b.flags| < |Bits(t)| + 8
            && |b.hashes| <= |txids|
  {
    var full := BlockTree(txids, matched);
    var t, b := Prune(h, full), Encode(h, txids, matched);
    BlockTreeShape(txids, matched);
    PruneShape(h, full, Levels(|txids|), true);
    var s := View(b);
    forall i | 0 <= i < |Bits(t)| ensures s.bits[i] == Bits(t)[i] {
      PackedBits(Bits(t), i);
    }
    assert Holds(s, START, t);
    ParseInverts(s, START, Levels(|txids|), t, true);
  }

  /** BIP 37 round trip: for every nonempty list of distinct nonzero transactions and every set
      of matches, the root traversal returns the block's Merkle root, the other traversal returns
      exactly the matched transactions in order, and both consume all hashes and, but for the
      padding of the last byte, all flags. */
  lemma RoundTrip(h: Combine, txids: seq<Hash>, matched: seq<bool>)
    requires CollisionFree(h)
    requires 0 < |txids| == |matched| < 0x8000_0000
    requires ZERO !in txids && forall i, j :: 0 <= i < j < |txids| ==> txids[i] != txids[j]
    ensures var b := Encode(h, txids, matched);
            && RootOf(h, b).md == MerkleRoot(h, txids)
            && Matches(TreeOf(b)) == Selected(Tips(txids, matched))
            && RootOf(h, b).at.hashIdx == |b.hashes|
            && RootOf(h, b).at.flagIdx <= 8 * |b.flags| < RootOf(h, b).at.flagIdx + 8
  {
    var full := BlockTree(txids, matched);
    BlockTreeShape(txids, matched);
    BlockTreeRoot(h, txids, matched);
    EncodedTree(h, txids, matched);
    PruneMatches(h, full);
    PruneSound(h, full, Levels(|txids|));
    DecodersAgree(h, Encode(h, txids, matched));
  }
}

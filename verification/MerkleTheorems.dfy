/** What the two BIP 37 decoders guarantee for arbitrary input: they agree with each other and
    with a partial tree. */
module MerkleTheorems {
  import opened Wrappers
  import opened MerkleTree
  import opened MerkleProof

  // ----- arbitrary input

  /** The tree that is read is the depth-first reading of exactly the bits and hashes consumed. */
  lemma {:induction false} ParseIsDepthFirst(s: Stream, c: Cursor, level: nat)
    requires c.flagIdx <= |s.bits| && c.hashIdx <= |s.hashes|
    ensures Parse(s, c, level).at.flagIdx <= |s.bits| && Parse(s, c, level).at.hashIdx <= |s.hashes|
    ensures s.bits[c.flagIdx..Parse(s, c, level).at.flagIdx] == Bits(Parse(s, c, level).tree)
    ensures s.hashes[c.hashIdx..Parse(s, c, level).at.hashIdx] == Hashes(Parse(s, c, level).tree)
    ensures LeavesAt(Parse(s, c, level).tree, level)
    decreases level
  {
    hide Parse;
    ParseUnfold(s, c, level);
    if MayRead(s, c) && s.bits[c.flagIdx] && level > 0 {
      var c1 := Cursor(c.hashIdx, c.flagIdx + 1);
      var left := Parse(s, c1, level - 1);
      var right := Parse(s, left.at, level - 1);
      ParseIsDepthFirst(s, c1, level - 1);
      ParseIsDepthFirst(s, left.at, level - 1);
      SliceTwice(s.bits, c1.flagIdx, left.at.flagIdx, right.at.flagIdx);
      SliceTwice(s.bits, c.flagIdx, c1.flagIdx, right.at.flagIdx);
      assert s.bits[c.flagIdx..c1.flagIdx] == [true];
      SliceTwice(s.hashes, c.hashIdx, left.at.hashIdx, right.at.hashIdx);
    }
  }

  lemma SliceTwice<T>(s: seq<T>, i: nat, j: nat, k: nat)
    requires i <= j <= k <= |s|
    ensures s[i..k] == s[i..j] + s[j..k]
  {
  }

  /** The root traversal either follows the other one to the end and returns the value of the
      same partial tree, or that tree is unsound and the hash cursor is left at `SIZE_MAX`. */
  lemma {:induction false} RootFollowsParse(h: Combine, s: Stream, c: Cursor, level: nat)
    requires c.hashIdx <= |s.hashes| < SIZE_MAX
    ensures Parse(s, c, level).at.hashIdx <= |s.hashes|
    ensures Sound(h, Parse(s, c, level).tree) ==>
              RootFrom(h, s, c, level) == Rooted(Value(h, Parse(s, c, level).tree), Parse(s, c, level).at)
    ensures !Sound(h, Parse(s, c, level).tree) ==> RootFrom(h, s, c, level).at.hashIdx == SIZE_MAX
    decreases level
  {
    hide Parse, RootFrom;
    RootStep(h, s, c, level);
    ParseUnfold(s, c, level);
    if MayRead(s, c) && s.bits[c.flagIdx] && level > 0 {
      var c1 := Cursor(c.hashIdx, c.flagIdx + 1);
      var left := Parse(s, c1, level - 1);
      RootFollowsParse(h, s, c1, level - 1);
      RootFollowsParse(h, s, left.at, level - 1);
      if !Sound(h, left.tree) {
        RootStep(h, s, RootFrom(h, s, c1, level - 1).at, level - 1);
      }
    }
  }

  /** One unfolding of `Parse`. */
  lemma ParseUnfold(s: Stream, c: Cursor, level: nat)
    ensures Parse(s, c, level)
         == if !MayRead(s, c) then Parsed(Missing, c)
            else if !s.bits[c.flagIdx] then Parsed(Stub(s.hashes[c.hashIdx]), Cursor(c.hashIdx + 1, c.flagIdx + 1))
            else if level == 0 then Parsed(Leaf(s.hashes[c.hashIdx]), Cursor(c.hashIdx + 1, c.flagIdx + 1))
            else
              var left := Parse(s, Cursor(c.hashIdx, c.flagIdx + 1), level - 1);
              var right := Parse(s, left.at, level - 1);
              Parsed(Fork(left.tree, right.tree), right.at)
  {
  }

  /** For arbitrary flags and hashes: the duplicate-hash branch was taken somewhere iff the hash
      cursor ends at `SIZE_MAX`; if not, the returned root and the reported transactions belong
      to one partial tree, whose depth-first form is what both traversals consumed. */
  lemma DecodersAgree(h: Combine, b: Block)
    requires |b.hashes| < SIZE_MAX
    ensures RootOf(h, b).at.hashIdx != SIZE_MAX <==> Sound(h, TreeOf(b))
    ensures RootOf(h, b).at.hashIdx != SIZE_MAX ==>
              && RootOf(h, b).md == Value(h, TreeOf(b))
              && RootOf(h, b).at == Parse(View(b), START, Levels(b.totalTx)).at
              && Bits(TreeOf(b)) <= View(b).bits
              && Hashes(TreeOf(b)) <= b.hashes
              && LeavesAt(TreeOf(b), Levels(b.totalTx))
              && |Bits(TreeOf(b))| == RootOf(h, b).at.flagIdx
              && |Hashes(TreeOf(b))| == RootOf(h, b).at.hashIdx
  {
    RootFollowsParse(h, View(b), START, Levels(b.totalTx));
    ParseIsDepthFirst(View(b), START, Levels(b.totalTx));
  }
}

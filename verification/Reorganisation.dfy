/** Chain reorganisation in bitcoin/BRPeerManager.c: where a fork joins the main chain, and what
    the wallet's transaction heights are afterwards. */
module Reorganisation {
  import opened Wrappers
  import opened Blocks
  import opened Transactions
  import opened WalletState
  import opened WalletOrder
  import opened WalletLedger
  import opened BlockChain

  // ----- the join

  predicate Stored(blocks: BlockSet, b: Block) {
    b.blockHash in blocks && blocks[b.blockHash] == b
  }

  /** `x` is `b` or reached from it by following predecessors within the set. */
  ghost predicate IsAncestor(blocks: BlockSet, b: Block, x: Block) {
    exists n: nat :: Ancestor(blocks, b, n) == Some(x)
  }

  ghost predicate IsCommon(blocks: BlockSet, b: Block, b2: Block, x: Block) {
    IsAncestor(blocks, b, x) && IsAncestor(blocks, b2, x)
  }

  lemma AncestorUnfold(blocks: BlockSet, b: Block, x: Block)
    ensures IsAncestor(blocks, b, x)
       <==> b == x || (b.prevBlock in blocks && IsAncestor(blocks, blocks[b.prevBlock], x))
  {
    if IsAncestor(blocks, b, x) && b != x {
      var n: nat :| Ancestor(blocks, b, n) == Some(x);
      assert Ancestor(blocks, blocks[b.prevBlock], n - 1) == Some(x);
    }
    if b == x {
      assert Ancestor(blocks, b, 0) == Some(x);
    }
    if b.prevBlock in blocks && IsAncestor(blocks, blocks[b.prevBlock], x) {
      var n: nat :| Ancestor(blocks, blocks[b.prevBlock], n) == Some(x);
      assert Ancestor(blocks, b, n + 1) == Some(x);
    }
  }

  lemma AncestorIsLower(blocks: BlockSet, b: Block, x: Block)
    requires AllLinked(blocks) && Linked(blocks, b) && IsAncestor(blocks, b, x)
    ensures x == b || x.height < b.height
    ensures x.height <= b.height && Ancestor(blocks, b, b.height - x.height) == Some(x)
  {
    var n: nat :| Ancestor(blocks, b, n) == Some(x);
    AncestorHeight(blocks, b, n);
    if n == 0 {
      assert Ancestor(blocks, b, 0) == Some(b);
    }
  }

  /** A common ancestor of two different blocks lies below the upper one. */
  lemma CommonIsBelow(blocks: BlockSet, b: Block, b2: Block, x: Block)
    requires AllLinked(blocks) && Keyed(blocks) && Stored(blocks, b) && Stored(blocks, b2)
    requires b != b2 && b.height >= b2.height && IsCommon(blocks, b, b2, x)
    ensures b.prevBlock in blocks && IsAncestor(blocks, blocks[b.prevBlock], x)
    ensures b.height == b2.height ==> b2.prevBlock in blocks && IsAncestor(blocks, blocks[b2.prevBlock], x)
  {
    hide IsAncestor;
    AncestorIsLower(blocks, b, x);
    AncestorIsLower(blocks, b2, x);
    AncestorUnfold(blocks, b, x);
    AncestorUnfold(blocks, b2, x);
  }

  lemma CommonAbove(blocks: BlockSet, b: Block, b2: Block, p: Block, p2: Block, x: Block)
    requires p == b || (b.prevBlock in blocks && blocks[b.prevBlock] == p)
    requires p2 == b2 || (b2.prevBlock in blocks && blocks[b2.prevBlock] == p2)
    requires IsCommon(blocks, p, p2, x)
    ensures IsCommon(blocks, b, b2, x)
  {
    hide IsAncestor;
    AncestorUnfold(blocks, b, x);
    AncestorUnfold(blocks, b2, x);
  }

  /** If the branches meet anywhere in the set, the walk stops at their highest common ancestor. */
  lemma {:induction false} JoinIsHighest(blocks: BlockSet, b: Block, b2: Block)
    requires AllLinked(blocks) && Keyed(blocks) && Stored(blocks, b) && Stored(blocks, b2)
    requires b.height >= b2.height
    ensures var (x, y) := Join(blocks, b, b2);
            && (x.Some? && y.Some? <==> exists z :: IsCommon(blocks, b, b2, z))
            && (x.Some? && y.Some? ==>
                  && x == y && IsCommon(blocks, b, b2, x.value)
                  && forall z :: IsCommon(blocks, b, b2, z) ==> z.height <= x.value.height)
    decreases b.height
  {
    hide IsAncestor;
    if b == b2 {
      AncestorUnfold(blocks, b, b);
      assert IsCommon(blocks, b, b2, b);
      forall z | IsCommon(blocks, b, b2, z) ensures z.height <= b.height {
        AncestorIsLower(blocks, b, z);
      }
    } else {
      forall z | IsCommon(blocks, b, b2, z)
        ensures b.prevBlock in blocks && IsAncestor(blocks, blocks[b.prevBlock], z)
        ensures b.height == b2.height ==> b2.prevBlock in blocks && IsAncestor(blocks, blocks[b2.prevBlock], z)
      {
        CommonIsBelow(blocks, b, b2, z);
      }
      if b.prevBlock in blocks {
        var p := blocks[b.prevBlock];
        if p.height >= b2.height {
          JoinStep(blocks, b, b2, p, b2);
        } else if b2.prevBlock in blocks {
          JoinStep(blocks, b, b2, p, blocks[b2.prevBlock]);
        }
      }
    }
  }

  /** The common ancestors of two blocks are those of the blocks one step down. */
  lemma {:induction false} JoinStep(blocks: BlockSet, b: Block, b2: Block, p: Block, p2: Block)
    requires AllLinked(blocks) && Keyed(blocks) && Stored(blocks, b) && Stored(blocks, b2)
    requires Stored(blocks, p) && Stored(blocks, p2) && p.height >= p2.height && p.height < b.height
    requires b.prevBlock in blocks && blocks[b.prevBlock] == p
    requires p2 == b2 || (b2.prevBlock in blocks && blocks[b2.prevBlock] == p2)
    requires Join(blocks, b, b2) == Join(blocks, p, p2)
    requires forall z :: IsCommon(blocks, b, b2, z) ==> IsAncestor(blocks, p, z) && IsAncestor(blocks, p2, z)
    ensures var (x, y) := Join(blocks, b, b2);
            && (x.Some? && y.Some? <==> exists z :: IsCommon(blocks, b, b2, z))
            && (x.Some? && y.Some? ==>
                  && x == y && IsCommon(blocks, b, b2, x.value)
                  && forall z :: IsCommon(blocks, b, b2, z) ==> z.height <= x.value.height)
    decreases b.height, 0
  {
    hide IsAncestor, Join;
    JoinIsHighest(blocks, p, p2);
    forall z ensures IsCommon(blocks, b, b2, z) <==> IsCommon(blocks, p, p2, z) {
      if IsCommon(blocks, p, p2, z) {
        CommonAbove(blocks, b, b2, p, p2, z);
      }
    }
  }

  /** The two-pointer walk. */
  method FindJoin(blocks: BlockSet, block: Block, tip: Block) returns (b: Option<Block>, b2: Option<Block>)
    requires AllLinked(blocks) && Linked(blocks, block)
    ensures (b, b2) == Join(blocks, block, tip)
  {
    b, b2 := Some(block), Some(tip);
    while b.Some? && b2.Some? && b.value.blockHash != b2.value.blockHash
      invariant b.Some? ==> Linked(blocks, b.value)
      invariant b.Some? && b2.Some? ==> Join(blocks, b.value, b2.value) == Join(blocks, block, tip)
      invariant b.None? || b2.None? ==> (b, b2) == Join(blocks, block, tip)
      decreases if b.Some? then b.value.height + 1 else 0
    {
      b := Get(blocks, b.value.prevBlock);
      if b.Some? && b.value.height < b2.value.height {
        b2 := Get(blocks, b2.value.prevBlock);
      }
    }
  }

  // ----- transaction heights

  /** The time given to transactions of a block: the mean of its own and its predecessor's. */
  function MeanTime(b: Block, prev: Block): nat { b.timestamp / 2 + prev.timestamp / 2 }

  /** Height and time of the lowest of the first `n` blocks of a branch that matches `h`. */
  function Confirmed(blocks: BlockSet, b: Block, n: nat, h: Hash): Option<(nat, nat)>
    requires Ancestor(blocks, b, n).Some?
    decreases n
  {
    if n == 0 then None
    else
      AncestorPrefix(blocks, b, n - 1, n);
      var a := Ancestor(blocks, b, n - 1).value;
      if h in a.matches then Some((a.height, MeanTime(a, Ancestor(blocks, b, n).value))) else Confirmed(blocks, b, n - 1, h)
  }

  predicate Matches(blocks: BlockSet, b: Block, i: nat, h: Hash) {
    var a := Ancestor(blocks, b, i);
    a.Some? && h in a.value.matches
  }

  /** They are those of a block of the branch that matches `h`, no lower one matching it, */
  lemma {:induction false} ConfirmedSome(blocks: BlockSet, b: Block, n: nat, h: Hash) returns (i: nat)
    requires Ancestor(blocks, b, n).Some? && Confirmed(blocks, b, n, h).Some?
    ensures i < n && Matches(blocks, b, i, h)
    ensures Ancestor(blocks, b, i + 1).Some?
    ensures var a := Ancestor(blocks, b, i).value;
            Confirmed(blocks, b, n, h).value == (a.height, MeanTime(a, Ancestor(blocks, b, i + 1).value))
    ensures forall k: nat :: i < k < n ==> !Matches(blocks, b, k, h)
    decreases n
  {
    hide Ancestor;
    AncestorPrefix(blocks, b, n - 1, n);
    if Matches(blocks, b, n - 1, h) {
      i := n - 1;
    } else {
      i := ConfirmedSome(blocks, b, n - 1, h);
    }
  }

  /** and there is none if no block of the branch matches it. */
  lemma {:induction false} ConfirmedNone(blocks: BlockSet, b: Block, n: nat, h: Hash)
    requires Ancestor(blocks, b, n).Some? && Confirmed(blocks, b, n, h).None?
    ensures forall k: nat :: k < n ==> !Matches(blocks, b, k, h)
    decreases n
  {
    hide Ancestor;
    if n > 0 {
      AncestorPrefix(blocks, b, n - 1, n);
      ConfirmedNone(blocks, b, n - 1, h);
    }
  }

  /** The largest of `height` and the heights of those of the first `n` blocks that match anything. */
  function Highest(blocks: BlockSet, b: Block, n: nat, height: nat): (r: nat)
    requires Ancestor(blocks, b, n).Some?
    ensures r >= height
    decreases n
  {
    if n == 0 then height
    else
      AncestorPrefix(blocks, b, n - 1, n);
      var a, r := Ancestor(blocks, b, n - 1).value, Highest(blocks, b, n - 1, height);
      if |a.matches| > 0 && a.height > r then a.height else r
  }

  lemma HighestStep(blocks: BlockSet, b: Block, n: nat, height: nat)
    requires Ancestor(blocks, b, n).Some?
    ensures n == 0 ==> Highest(blocks, b, n, height) == height
    ensures n > 0 ==>
              && Ancestor(blocks, b, n - 1).Some?
              && var a, r := Ancestor(blocks, b, n - 1).value, Highest(blocks, b, n - 1, height);
                 Highest(blocks, b, n, height) == if |a.matches| > 0 && a.height > r then a.height else r
  {
    if n > 0 {
      AncestorPrefix(blocks, b, n - 1, n);
    }
  }

  /** That is the least upper bound: it is reached, and nothing that matches is higher. */
  lemma {:induction false} HighestMeans(blocks: BlockSet, b: Block, n: nat, height: nat)
    requires Ancestor(blocks, b, n).Some?
    ensures forall i: nat :: i < n && HasMatches(blocks, b, i) ==> Ancestor(blocks, b, i).value.height <= Highest(blocks, b, n, height)
    ensures || Highest(blocks, b, n, height) == height
            || exists i: nat :: i < n && HasMatches(blocks, b, i) && Ancestor(blocks, b, i).value.height == Highest(blocks, b, n, height)
    decreases n
  {
    if n > 0 {
      hide Ancestor;
      AncestorPrefix(blocks, b, n - 1, n);
      HighestMeans(blocks, b, n - 1, height);
      assert HasMatches(blocks, b, n - 1) <==> |Ancestor(blocks, b, n - 1).value.matches| > 0;
    }
  }

  predicate HasMatches(blocks: BlockSet, b: Block, i: nat) {
    var a := Ancestor(blocks, b, i);
    a.Some? && |a.value.matches| > 0
  }

  /** A transaction after `n` blocks of a branch were taken on. */
  function TxAfter(blocks: BlockSet, b: Block, n: nat, h: Hash, tx: Tx): Tx
    requires Ancestor(blocks, b, n).Some?
  {
    var c := Confirmed(blocks, b, n, h);
    if c.Some? then Restamp(tx, c.value.0, c.value.1) else tx
  }

  /** So are all listed transactions. */
  predicate AllAfter(blocks: BlockSet, b: Block, n: nat, before: map<Hash, Tx>, after: map<Hash, Tx>, list: seq<Hash>)
    requires Ancestor(blocks, b, n).Some?
  {
    forall h :: h in list ==> h in before && h in after && after[h] == TxAfter(blocks, b, n, h, before[h])
  }

  /** The listed transactions that are touched get the height and time, the others stay. */
  predicate StampedList(before: map<Hash, Tx>, after: map<Hash, Tx>, list: seq<Hash>, touched: seq<Hash>, height: nat, time: nat) {
    forall h :: h in list ==>
      h in before && h in after && after[h] == if h in touched then Restamp(before[h], height, time) else before[h]
  }

  lemma StampingList(pkhOf: ScriptPKH, owned: set<PKH>, before: map<Hash, Tx>, after: map<Hash, Tx>, list: seq<Hash>,
                     touched: seq<Hash>, height: nat, time: nat)
    requires forall h :: h in list ==> h in before && Concerns(pkhOf, owned, before, before[h])
    requires Stamped(pkhOf, owned, before, after, Members(touched), height, time)
    ensures StampedList(before, after, list, touched, height, time)
  {
    hide Concerns;
  }

  lemma {:induction false} OneMoreBlock(blocks: BlockSet, b: Block, n: nat, before: map<Hash, Tx>, mid: map<Hash, Tx>,
                     after: map<Hash, Tx>, list: seq<Hash>)
    requires Ancestor(blocks, b, n).Some? && Ancestor(blocks, b, n + 1).Some?
    requires AllAfter(blocks, b, n, before, mid, list)
    requires var a := Ancestor(blocks, b, n).value;
             StampedList(mid, after, list, a.matches, a.height, MeanTime(a, Ancestor(blocks, b, n + 1).value))
    ensures AllAfter(blocks, b, n + 1, before, after, list)
  {
    hide Ancestor;
  }

  lemma NothingMatched(blocks: BlockSet, b: Block, allTx: map<Hash, Tx>, list: seq<Hash>)
    requires Registered(allTx, list)
    ensures Ancestor(blocks, b, 0) == Some(b) && AllAfter(blocks, b, 0, allTx, allTx, list)
  {
  }

  /** `BRWalletUpdateTransactions` as the peer manager calls it, when a block reports matches. */
  method ConfirmMatches(w: Wallet, matches: seq<Hash>, height: nat, time: nat, now: int, ghost rank: Hash -> nat)
    requires Ledger(w) && Ranked(w.allTx, rank)
    modifies w`blockHeight, w`allTx, w`transactions, w`balance, w`totalSent, w`totalReceived, w`balanceHist, w`utxos,
             w`invalidTx, w`pendingTx, w`spentOutputs, w`usedPKH
    ensures Ledger(w) && Ranked(w.allTx, rank)
    ensures forall h :: h in w.transactions <==> h in old(w.transactions)
    ensures StampedList(old(w.allTx), w.allTx, old(w.transactions), matches, height, time)
    ensures w.blockHeight == if |matches| > 0 && height > old(w.blockHeight) then height else old(w.blockHeight)
  {
    hide Concerns, SortedByHeight, Stamped, StampedList, Members;
    ghost var before, list := w.allTx, w.transactions;
    LedgerRegistered(w);
    if |matches| > 0 {
      var updated, needsUpdate := UpdateTransactions(w, matches, height, time, now, rank);
      SameMembers(w.transactions, list);
      StampingList(w.pkhOf, w.allPKH, before, w.allTx, list, matches, height, time);
    } else {
      NothingStamped(before, list, matches, height, time);
    }
  }

  lemma SameMembers(a: seq<Hash>, b: seq<Hash>)
    requires multiset(a) == multiset(b)
    ensures forall h :: h in a <==> h in b
  {
    forall h ensures h in a <==> h in b {
      assert h in multiset(a) <==> h in multiset(b);
    }
  }

  lemma NothingStamped(allTx: map<Hash, Tx>, list: seq<Hash>, matches: seq<Hash>, height: nat, time: nat)
    requires Registered(allTx, list) && matches == []
    ensures StampedList(allTx, allTx, list, matches, height, time)
  {
  }

  /** The loop that takes on the blocks of the new branch, from the new tip down to the join. */
  method ConfirmBranch(w: Wallet, blocks: BlockSet, block: Block, join: Block, now: int, ghost rank: Hash -> nat)
    requires Ledger(w) && Ranked(w.allTx, rank)
    requires AllLinked(blocks) && Linked(blocks, block) && IsAncestor(blocks, block, join)
    modifies w`blockHeight, w`allTx, w`transactions, w`balance, w`totalSent, w`totalReceived, w`balanceHist, w`utxos,
             w`invalidTx, w`pendingTx, w`spentOutputs, w`usedPKH
    ensures Ledger(w) && Ranked(w.allTx, rank)
    ensures forall h :: h in w.transactions <==> h in old(w.transactions)
    ensures block.height >= join.height && Ancestor(blocks, block, block.height - join.height) == Some(join)
    ensures AllAfter(blocks, block, block.height - join.height, old(w.allTx), w.allTx, old(w.transactions))
    ensures w.blockHeight == Highest(blocks, block, block.height - join.height, old(w.blockHeight))
  {
    hide Ledger, Ranked, AllAfter, StampedList, IsAncestor, Ancestor, Highest;
    AncestorIsLower(blocks, block, join);
    ghost var before, list := w.allTx, w.transactions;
    LedgerRegistered(w);
    NothingMatched(blocks, block, before, list);
    HighestStep(blocks, block, 0, w.blockHeight);
    var b := Some(block);
    ghost var height0 := w.blockHeight;
    ghost var n := 0;
    while b.Some? && b.value.height > join.height
      invariant Ledger(w) && Ranked(w.allTx, rank)
      invariant forall h :: h in w.transactions <==> h in list
      invariant n <= block.height - join.height
      invariant b.Some? && b == Ancestor(blocks, block, n) && b.value.height == block.height - n
      invariant AllAfter(blocks, block, n, before, w.allTx, list)
      invariant w.blockHeight == Highest(blocks, block, n, height0)
      decreases if b.Some? then b.value.height + 1 else 0
    {
      ghost var mid, listed := w.allTx, w.transactions;
      AncestorPrefix(blocks, block, n + 1, block.height - join.height);
      AncestorHeight(blocks, block, n + 1);
      AncestorStep(blocks, block, n);
      var height, time, matches := b.value.height, b.value.timestamp, b.value.matches;
      b := Get(blocks, b.value.prevBlock);
      if b.Some? {
        time := time / 2 + b.value.timestamp / 2;
      }
      ConfirmMatches(w, matches, height, time, now, rank);
      SameList(mid, w.allTx, listed, list, matches, height, time);
      OneMoreBlock(blocks, block, n, before, mid, w.allTx, list);
      n := n + 1;
      HighestStep(blocks, block, n, height0);
    }
  }

  lemma LedgerRegistered(w: Wallet)
    requires Ledger(w)
    ensures Registered(w.allTx, w.transactions)
    ensures forall h :: h in w.transactions ==> h in w.allTx && Concerns(w.pkhOf, w.allPKH, w.allTx, w.allTx[h])
  {
  }

  lemma SameList(before: map<Hash, Tx>, after: map<Hash, Tx>, list: seq<Hash>, list': seq<Hash>,
                 touched: seq<Hash>, height: nat, time: nat)
    requires StampedList(before, after, list, touched, height, time) && (forall h :: h in list <==> h in list')
    ensures StampedList(before, after, list', touched, height, time)
  {
  }

  /** Registered transactions after a reorganisation that joins at `join`: one matched by a block of
      the new branch gets the height and time of the lowest such block; any other that was above the
      join is unconfirmed; the rest stay as they are. */
  predicate Reorganised(blocks: BlockSet, block: Block, join: Block, before: map<Hash, Tx>, after: map<Hash, Tx>, list: seq<Hash>)
    requires block.height >= join.height && Ancestor(blocks, block, block.height - join.height).Some?
  {
    forall h :: h in list ==>
      && h in before && h in after
      && after[h] == TxAfter(blocks, block, block.height - join.height, h,
                             if before[h].blockHeight > join.height then before[h].(blockHeight := TX_UNCONFIRMED) else before[h])
  }

  /** Un-confirms what is above the join, and takes on the new branch if the old one reaches the join. */
  method Rebase(w: Wallet, blocks: BlockSet, block: Block, join: Block, meets: bool, now: int, ghost rank: Hash -> nat)
    requires Ledger(w) && Ranked(w.allTx, rank) && join.height <= TX_UNCONFIRMED
    requires AllLinked(blocks) && Linked(blocks, block) && (meets ==> IsAncestor(blocks, block, join))
    modifies w`blockHeight, w`allTx, w`transactions, w`balance, w`totalSent, w`totalReceived, w`balanceHist, w`utxos,
             w`invalidTx, w`pendingTx, w`spentOutputs, w`usedPKH
    ensures Ledger(w) && Ranked(w.allTx, rank)
    ensures forall h :: h in w.transactions <==> h in old(w.transactions)
    ensures meets ==>
              && block.height >= join.height && Ancestor(blocks, block, block.height - join.height).Some?
              && Reorganised(blocks, block, join, old(w.allTx), w.allTx, old(w.transactions))
              && w.blockHeight == Highest(blocks, block, block.height - join.height, join.height)
    ensures !meets ==> w.allTx == Unconfirmed(old(w.allTx), old(w.transactions), join.height) && w.blockHeight == join.height
  {
    hide Ledger, Ranked, Unconfirmed, Reorganised, AllAfter, IsAncestor, Ancestor, Highest;
    ghost var before, list := w.allTx, w.transactions;
    LedgerRegistered(w);
    var hashes := SetTxUnconfirmedAfter(w, join.height, now, rank);
    if meets {
      ghost var mid := w.allTx;
      ConfirmBranch(w, blocks, block, join, now, rank);
      UnconfirmedThenConfirmed(blocks, block, join, before, mid, w.allTx, list);
    }
  }

  /** The part of `_peerRelayedBlock` run when a fork outgrows the main chain. */
  method Reorganise(w: Wallet, blocks: BlockSet, block: Block, tip: Block, now: int, ghost rank: Hash -> nat) returns (found: bool)
    requires Ledger(w) && Ranked(w.allTx, rank)
    requires AllLinked(blocks) && Keyed(blocks) && Stored(blocks, block) && Stored(blocks, tip) && block.height > tip.height
    requires forall h :: h in blocks ==> blocks[h].height <= TX_UNCONFIRMED
    modifies w`blockHeight, w`allTx, w`transactions, w`balance, w`totalSent, w`totalReceived, w`balanceHist, w`utxos,
             w`invalidTx, w`pendingTx, w`spentOutputs, w`usedPKH
    ensures Ledger(w) && Ranked(w.allTx, rank)
    ensures forall h :: h in w.transactions <==> h in old(w.transactions)
    ensures found <==> Join(blocks, block, tip).0.Some?
    ensures var (b, b2) := Join(blocks, block, tip);
            b.Some? && b2.Some? ==>
              && IsCommon(blocks, block, tip, b.value)
              && block.height >= b.value.height && Ancestor(blocks, block, block.height - b.value.height).Some?
              && Reorganised(blocks, block, b.value, old(w.allTx), w.allTx, old(w.transactions))
              && w.blockHeight == Highest(blocks, block, block.height - b.value.height, b.value.height)
    ensures var (b, b2) := Join(blocks, block, tip);
            b.Some? && b2.None? ==> w.allTx == Unconfirmed(old(w.allTx), old(w.transactions), b.value.height)
                                    && w.blockHeight == b.value.height
    ensures !found ==> unchanged(w)
  {
    hide Ledger, Ranked, Unconfirmed, Reorganised, IsAncestor, Ancestor, Join, Highest;
    var b, b2 := FindJoin(blocks, block, tip);
    found := b.Some?;
    if b.Some? {
      JoinIsHighest(blocks, block, tip);
      JoinIsStored(blocks, block, tip);
      Rebase(w, blocks, block, b.value, b2.Some?, now, rank);
    }
  }

  lemma UnconfirmedThenConfirmed(blocks: BlockSet, block: Block, join: Block, before: map<Hash, Tx>, mid: map<Hash, Tx>,
                                 after: map<Hash, Tx>, list: seq<Hash>)
    requires block.height >= join.height && Ancestor(blocks, block, block.height - join.height).Some?
    requires forall h :: h in list ==> h in before
    requires mid == Unconfirmed(before, list, join.height)
    requires AllAfter(blocks, block, block.height - join.height, mid, after, list)
    ensures Reorganised(blocks, block, join, before, after, list)
  {
    hide Ancestor, Confirmed;
  }

  lemma {:induction false} JoinIsStored(blocks: BlockSet, b: Block, b2: Block)
    requires AllLinked(blocks) && Keyed(blocks) && Linked(blocks, b) && Stored(blocks, b)
    ensures Join(blocks, b, b2).0.Some? ==> Stored(blocks, Join(blocks, b, b2).0.value)
    decreases b.height
  {
    if b.prevBlock in blocks && b != b2 {
      var p := blocks[b.prevBlock];
      if p.height >= b2.height {
        JoinIsStored(blocks, p, b2);
      } else if b2.prevBlock in blocks {
        JoinIsStored(blocks, p, blocks[b2.prevBlock]);
      }
    }
  }
}

/** The order of registered transactions in bitcoin/BRWallet.c, said of chains of spending and of
    positions in the address chains instead of by the recursion that decides it. */
module OrderRules {
  import opened Wrappers
  import opened Transactions
  import opened WalletState
  import opened WalletOrder

  // ----- dependency

  ghost predicate HasInput(tx: Tx, h: Hash) {
    exists i | 0 <= i < |tx.inputs| :: tx.inputs[i].txHash == h
  }

  /** A line of known transactions, each spent by the one before it, that leads from its first
      one to something above `tx2`: what is left behind is at the height of `tx2` and not spent
      by it, and the last one is higher, or as high and spends `tx2`. */
  ghost predicate LeadsAbove(allTx: map<Hash, Tx>, line: seq<Tx>, tx2: Tx) {
    && line != []
    && (forall k :: 0 <= k < |line| - 1 ==>
          && line[k].blockHeight == tx2.blockHeight && !HasInput(tx2, line[k].txHash)
          && IsParent(allTx, line[k + 1], line[k]))
    && var last := line[|line| - 1];
       last.blockHeight > tx2.blockHeight
       || (last.blockHeight == tx2.blockHeight && HasInput(last, tx2.txHash))
  }

  ghost predicate IsParent(allTx: map<Hash, Tx>, parent: Tx, tx: Tx) {
    exists h | h in allTx :: allTx[h] == parent && HasInput(tx, h)
  }

  /** A transaction is above another exactly when a line leads there. */
  lemma {:induction false} AscendsExactly(allTx: map<Hash, Tx>, tx1: Tx, tx2: Tx, rank: Hash -> nat)
    requires Ranked(allTx, rank) && RankedTx(tx1, rank) && RankedTx(tx2, rank)
    ensures IsAscending(allTx, Some(tx1), tx2, rank) <==> exists line :: LeadsAbove(allTx, line, tx2) && line[0] == tx1
    decreases rank(tx1.txHash)
  {
    if IsAscending(allTx, Some(tx1), tx2, rank) {
      if tx1.blockHeight > tx2.blockHeight || DirectlySpends(tx1, tx2.txHash) {
        assert LeadsAbove(allTx, [tx1], tx2);
      } else {
        var i :| 0 <= i < |tx1.inputs| && IsAscending(allTx, Find(allTx, tx1.inputs[i].txHash), tx2, rank);
        var h := tx1.inputs[i].txHash;
        AscendsExactly(allTx, allTx[h], tx2, rank);
        var line :| LeadsAbove(allTx, line, tx2) && line[0] == allTx[h];
        var longer := [tx1] + line;
        assert IsParent(allTx, allTx[h], tx1);
        assert forall k :: 0 < k < |longer| ==> longer[k] == line[k - 1];
        assert LeadsAbove(allTx, longer, tx2);
      }
    }
    forall line | LeadsAbove(allTx, line, tx2) && line[0] == tx1 ensures IsAscending(allTx, Some(tx1), tx2, rank) {
      LineAscends(allTx, line, tx2, rank);
    }
  }

  lemma {:induction false} LineAscends(allTx: map<Hash, Tx>, line: seq<Tx>, tx2: Tx, rank: Hash -> nat)
    requires Ranked(allTx, rank) && RankedTx(tx2, rank)
    requires LeadsAbove(allTx, line, tx2) && RankedTx(line[0], rank)
    ensures IsAscending(allTx, Some(line[0]), tx2, rank)
    decreases |line|
  {
    if |line| == 1 {
      assert HasInput(line[0], tx2.txHash) ==> DirectlySpends(line[0], tx2.txHash);
    } else {
      var rest := line[1..];
      assert IsParent(allTx, line[1], line[0]);
      var h :| h in allTx && allTx[h] == line[1] && HasInput(line[0], h);
      assert forall k :: 0 <= k < |rest| ==> rest[k] == line[k + 1];
      LineAscends(allTx, rest, tx2, rank);
      var i :| 0 <= i < |line[0].inputs| && line[0].inputs[i].txHash == h;
      assert Find(allTx, line[0].inputs[i].txHash) == Some(line[1]);
    }
  }

  // ----- ties

  ghost predicate PaysKey(pkhOf: ScriptPKH, tx: Tx, pkh: PKH) {
    exists o | o in tx.outputs :: pkhOf(o.script) == Some(pkh)
  }

  /** `last` is the last position of `chain` whose key `tx` pays, and there is none if there is none. */
  ghost predicate IsLastPaid(pkhOf: ScriptPKH, tx: Tx, chain: seq<PKH>, last: Option<nat>) {
    && (last.Some? ==> last.value < |chain| && PaysKey(pkhOf, tx, chain[last.value]))
    && (forall k :: (if last.Some? then last.value + 1 else 0) <= k < |chain| ==> !PaysKey(pkhOf, tx, chain[k]))
  }

  lemma {:induction false} LastPaidExactly(pkhOf: ScriptPKH, tx: Tx, chain: seq<PKH>, last: Option<nat>)
    ensures IsLastPaid(pkhOf, tx, chain, last) <==> last == ChainIndex(pkhOf, tx, chain)
  {
    IndexIsLastPaid(pkhOf, tx, chain);
    var i := ChainIndex(pkhOf, tx, chain);
    if IsLastPaid(pkhOf, tx, chain, last) {
      assert i.Some? ==> last.Some? && last.value >= i.value;
      assert last.Some? ==> i.Some? && i.value >= last.value;
    }
  }

  lemma {:induction false} IndexIsLastPaid(pkhOf: ScriptPKH, tx: Tx, chain: seq<PKH>)
    ensures IsLastPaid(pkhOf, tx, chain, ChainIndex(pkhOf, tx, chain))
  {
    if chain != [] {
      var n := |chain| - 1;
      assert PaysTo(pkhOf, tx, chain[n]) <==> PaysKey(pkhOf, tx, chain[n]);
      if !PaysTo(pkhOf, tx, chain[n]) {
        IndexIsLastPaid(pkhOf, tx, chain[..n]);
        assert forall k :: 0 <= k < n ==> chain[..n][k] == chain[k];
      }
    }
  }

  ghost function Sign(a: nat, b: nat): int {
    if a > b then 1 else if a < b then -1 else 0
  }

  /** The comparison, outcome by outcome. Of transactions neither of which is above the other, the one
      that pays the later change address is above; if one of them pays none, the one that pays
      the later receive address; otherwise they tie. */
  lemma CompareExactly(w: Wallet, tx1: Tx, tx2: Tx, rank: Hash -> nat,
                       change1: Option<nat>, change2: Option<nat>, receive1: Option<nat>, receive2: Option<nat>)
    requires Ranked(w.allTx, rank) && RankedTx(tx1, rank) && RankedTx(tx2, rank)
    requires IsLastPaid(w.pkhOf, tx1, w.internalChain, change1) && IsLastPaid(w.pkhOf, tx2, w.internalChain, change2)
    requires IsLastPaid(w.pkhOf, tx1, w.externalChain, receive1) && IsLastPaid(w.pkhOf, tx2, w.externalChain, receive2)
    ensures var above1 := exists line :: LeadsAbove(w.allTx, line, tx2) && line[0] == tx1;
            var above2 := exists line :: LeadsAbove(w.allTx, line, tx1) && line[0] == tx2;
            Compare(w, tx1, tx2, rank)
              == if above1 then 1
                 else if above2 then -1
                 else if change1.Some? && change2.Some? then Sign(change1.value, change2.value)
                 else if receive1.Some? && receive2.Some? then Sign(receive1.value, receive2.value)
                 else 0
  {
    hide LeadsAbove, IsLastPaid;
    AscendsExactly(w.allTx, tx1, tx2, rank);
    AscendsExactly(w.allTx, tx2, tx1, rank);
    LastPaidExactly(w.pkhOf, tx1, w.internalChain, change1);
    LastPaidExactly(w.pkhOf, tx2, w.internalChain, change2);
    LastPaidExactly(w.pkhOf, tx1, w.externalChain, receive1);
    LastPaidExactly(w.pkhOf, tx2, w.externalChain, receive2);
  }

  // ----- the place in the list

  /** There is one place for a transaction: right after the last one that does not compare above it. */
  lemma SlotIsUnique(w: Wallet, list: seq<Hash>, pos: nat, tx: Tx, rank: Hash -> nat)
    requires Ranked(w.allTx, rank) && RankedTx(tx, rank) && pos <= |list|
    requires forall h :: h in list ==> h in w.allTx
    ensures IsSlot(w, list, pos, tx, rank)
       <==> && (forall k :: 0 <= k < |list| && Compare(w, w.allTx[list[k]], tx, rank) <= 0 ==> k < pos)
            && (pos > 0 ==> Compare(w, w.allTx[list[pos - 1]], tx, rank) <= 0)
    ensures forall other: nat :: IsSlot(w, list, pos, tx, rank) && IsSlot(w, list, other, tx, rank) ==> other == pos
  {
    hide Compare;
    assert forall k :: 0 <= k < |list| ==> list[k] in w.allTx;
  }
}

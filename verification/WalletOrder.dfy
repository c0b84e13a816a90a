/** The order of registered transactions in bitcoin/BRWallet.c: the comparison, which looks at
    heights, then dependencies, then chain positions, and the insertion sort that uses it. */
module WalletOrder {
  import opened Wrappers
  import opened Transactions
  import opened WalletState

  /** A transaction ranks above those it spends; such a rank exists because a transaction's hash
      commits to the hashes of its inputs. */
  ghost predicate RankedTx(tx: Tx, rank: Hash -> nat) {
    forall i :: 0 <= i < |tx.inputs| ==> rank(tx.inputs[i].txHash) < rank(tx.txHash)
  }

  ghost predicate Ranked(allTx: map<Hash, Tx>, rank: Hash -> nat) {
    Indexed(allTx) && forall h :: h in allTx ==> RankedTx(allTx[h], rank)
  }

  predicate DirectlySpends(tx: Tx, h: Hash) {
    exists i :: 0 <= i < |tx.inputs| && tx.inputs[i].txHash == h
  }

  function Find(allTx: map<Hash, Tx>, h: Hash): Option<Tx> {
    if h in allTx then Some(allTx[h]) else None
  }

  /** `_BRWalletTxIsAscending`. */
  predicate IsAscending(allTx: map<Hash, Tx>, tx1: Option<Tx>, tx2: Tx, ghost rank: Hash -> nat)
    requires Ranked(allTx, rank) && (tx1.Some? ==> RankedTx(tx1.value, rank))
    decreases if tx1.Some? then rank(tx1.value.txHash) + 1 else 0
  {
    if tx1.None? then false
    else if tx1.value.blockHeight > tx2.blockHeight then true
    else if tx1.value.blockHeight < tx2.blockHeight then false
    else if DirectlySpends(tx1.value, tx2.txHash) then true
    else if DirectlySpends(tx2, tx1.value.txHash) then false
    else exists i :: 0 <= i < |tx1.value.inputs|
                  && IsAscending(allTx, Find(allTx, tx1.value.inputs[i].txHash), tx2, rank)
  }

  predicate PaysTo(pkhOf: ScriptPKH, tx: Tx, pkh: PKH) {
    exists j :: 0 <= j < |tx.outputs| && pkhOf(tx.outputs[j].script) == Some(pkh)
  }

  /** `_txChainIndex`: the last position in `chain` that an output of `tx` pays to. */
  function ChainIndex(pkhOf: ScriptPKH, tx: Tx, chain: seq<PKH>): Option<nat> {
    if chain == [] then None
    else if PaysTo(pkhOf, tx, chain[|chain| - 1]) then Some(|chain| - 1)
    else ChainIndex(pkhOf, tx, chain[..|chain| - 1])
  }

  /** `_BRWalletTxCompare`. */
  function Compare(w: Wallet, tx1: Tx, tx2: Tx, ghost rank: Hash -> nat): int
    requires Ranked(w.allTx, rank) && RankedTx(tx1, rank) && RankedTx(tx2, rank)
    reads w`allTx, w`internalChain, w`externalChain
  {
    if IsAscending(w.allTx, Some(tx1), tx2, rank) then 1
    else if IsAscending(w.allTx, Some(tx2), tx1, rank) then -1
    else
      var i := ChainIndex(w.pkhOf, tx1, w.internalChain);
      var j := if i.Some? then ChainIndex(w.pkhOf, tx2, w.internalChain) else None;
      var i' := if j.None? then ChainIndex(w.pkhOf, tx1, w.externalChain) else i;
      var j' := if j.None? && i'.Some? then ChainIndex(w.pkhOf, tx2, w.externalChain) else j;
      if i'.Some? && j'.Some? && i'.value != j'.value then (if i'.value > j'.value then 1 else -1) else 0
  }

  /** What sorting can rely on: the comparison never contradicts the heights, and where heights
      are equal a direct spender compares above what it spends. */
  lemma CompareRespectsHeights(w: Wallet, tx1: Tx, tx2: Tx, rank: Hash -> nat)
    requires Ranked(w.allTx, rank) && RankedTx(tx1, rank) && RankedTx(tx2, rank)
    ensures Compare(w, tx1, tx2, rank) > 0 ==> tx1.blockHeight >= tx2.blockHeight
    ensures Compare(w, tx1, tx2, rank) <= 0 ==> tx1.blockHeight <= tx2.blockHeight
    ensures tx1.blockHeight == tx2.blockHeight && DirectlySpends(tx1, tx2.txHash) ==>
              Compare(w, tx1, tx2, rank) > 0 && Compare(w, tx2, tx1, rank) < 0
  {
    if DirectlySpends(tx1, tx2.txHash) {
      assert !DirectlySpends(tx2, tx1.txHash);
    }
  }

  // ----- sortedness

  function HeightOf(allTx: map<Hash, Tx>, h: Hash): nat {
    if h in allTx then allTx[h].blockHeight else 0
  }

  predicate SortedByHeight(allTx: map<Hash, Tx>, list: seq<Hash>) {
    forall i, j :: 0 <= i < j < |list| ==> HeightOf(allTx, list[i]) <= HeightOf(allTx, list[j])
  }

  function InsertAt(list: seq<Hash>, pos: nat, h: Hash): seq<Hash>
    requires pos <= |list|
  {
    list[..pos] + [h] + list[pos..]
  }

  /** Where `tx` belongs in `list`: everything from `pos` on compares above it, what comes right before does not. */
  ghost predicate IsSlot(w: Wallet, list: seq<Hash>, pos: nat, tx: Tx, rank: Hash -> nat)
    requires Ranked(w.allTx, rank) && RankedTx(tx, rank)
    reads w`allTx, w`internalChain, w`externalChain
  {
    && pos <= |list|
    && (forall k :: pos <= k < |list| ==> list[k] in w.allTx && Compare(w, w.allTx[list[k]], tx, rank) > 0)
    && (pos > 0 ==> list[pos - 1] in w.allTx && Compare(w, w.allTx[list[pos - 1]], tx, rank) <= 0)
  }

  /** `_BRWalletInsertTx`: insertion from the end, past everything that compares above `tx`. */
  method InsertTx(w: Wallet, tx: Tx, ghost rank: Hash -> nat) returns (ghost pos: nat)
    requires w.Valid() && Ranked(w.allTx, rank)
    requires tx.txHash in w.allTx && w.allTx[tx.txHash] == tx && tx.txHash !in w.transactions
    requires SortedByHeight(w.allTx, w.transactions)
    modifies w`transactions
    ensures w.Valid() && SortedByHeight(w.allTx, w.transactions)
    ensures pos <= |old(w.transactions)| && IsSlot(w, old(w.transactions), pos, tx, rank)
    ensures w.transactions == InsertAt(old(w.transactions), pos, tx.txHash)
  {
    hide Compare, SortedByHeight, InsertAt;
    var old0 := w.transactions;
    var i := |w.transactions|;
    ghost var hole := tx.txHash;
    w.transactions := w.transactions + [tx.txHash];
    HoleAtEnd(old0, hole);
    HoleAt(old0, i, hole);
    while i > 0 && Compare(w, w.allTx[w.transactions[i - 1]], tx, rank) > 0
      invariant 0 <= i <= |old0|
      invariant w.transactions == InsertAt(old0, i, hole) && |w.transactions| == |old0| + 1
      invariant i > 0 ==> w.transactions[i - 1] == old0[i - 1]
      invariant forall k :: 0 <= k < |old0| ==> old0[k] in w.allTx
      invariant i < |old0| ==> w.allTx[old0[i]].blockHeight >= tx.blockHeight
      invariant forall k :: i <= k < |old0| ==> Compare(w, w.allTx[old0[k]], tx, rank) > 0
    {
      CompareRespectsHeights(w, w.allTx[w.transactions[i - 1]], tx, rank);
      ShiftHole(old0, i, hole);
      hole := w.transactions[i - 1];
      w.transactions := w.transactions[i := w.transactions[i - 1]];
      i := i - 1;
      HoleAt(old0, i, hole);
    }
    if i > 0 {
      CompareRespectsHeights(w, w.allTx[old0[i - 1]], tx, rank);
    }
    FillHole(old0, i, hole, tx.txHash);
    w.transactions := w.transactions[i := tx.txHash];
    pos := i;
    InsertKeepsOrder(w.allTx, old0, pos, tx.txHash);
  }

  lemma HoleAtEnd(list: seq<Hash>, h: Hash)
    ensures InsertAt(list, |list|, h) == list + [h]
  {
  }

  lemma HoleAt(list: seq<Hash>, i: nat, h: Hash)
    requires i <= |list|
    ensures |InsertAt(list, i, h)| == |list| + 1
    ensures i > 0 ==> InsertAt(list, i, h)[i - 1] == list[i - 1]
  {
  }

  lemma ShiftHole(list: seq<Hash>, i: nat, h: Hash)
    requires 0 < i <= |list|
    ensures |InsertAt(list, i, h)| == |list| + 1
    ensures InsertAt(list, i, h)[i := list[i - 1]] == InsertAt(list, i - 1, list[i - 1])
  {
  }

  lemma FillHole(list: seq<Hash>, i: nat, h: Hash, k: Hash)
    requires i <= |list|
    ensures |InsertAt(list, i, h)| == |list| + 1
    ensures InsertAt(list, i, h)[i := k] == InsertAt(list, i, k)
  {
  }

  lemma InsertKeepsOrder(allTx: map<Hash, Tx>, list: seq<Hash>, pos: nat, h: Hash)
    requires pos <= |list| && SortedByHeight(allTx, list)
    requires Registered(allTx, list) && h in allTx && h !in list
    requires pos > 0 ==> HeightOf(allTx, list[pos - 1]) <= HeightOf(allTx, h)
    requires pos < |list| ==> HeightOf(allTx, h) <= HeightOf(allTx, list[pos])
    ensures SortedByHeight(allTx, InsertAt(list, pos, h))
    ensures Registered(allTx, InsertAt(list, pos, h))
  {
    hide HeightOf;
    var r := InsertAt(list, pos, h);
    forall i | 0 <= i < |r| ensures r[i] == if i < pos then list[i] else if i == pos then h else list[i - 1] {
    }
    forall i, j | 0 <= i < j < |r| ensures HeightOf(allTx, r[i]) <= HeightOf(allTx, r[j]) && r[i] != r[j] {
    }
  }

  // ----- taking one out

  function RemoveAt(list: seq<Hash>, pos: nat): seq<Hash>
    requires pos < |list|
  {
    list[..pos] + list[pos + 1..]
  }

  lemma RemoveKeepsOrder(allTx: map<Hash, Tx>, list: seq<Hash>, pos: nat)
    requires pos < |list| && Registered(allTx, list)
    ensures Registered(allTx, RemoveAt(list, pos)) && list[pos] !in RemoveAt(list, pos)
    ensures SortedByHeight(allTx, list) ==> SortedByHeight(allTx, RemoveAt(list, pos))
    ensures forall h :: h in RemoveAt(list, pos) <==> h in list && h != list[pos]
  {
    var r := RemoveAt(list, pos);
    forall i | 0 <= i < |r| ensures r[i] == list[if i < pos then i else i + 1] {
    }
    forall h | h in list && h != list[pos] ensures h in r {
      var i :| 0 <= i < |list| && list[i] == h;
      assert r[if i < pos then i else i - 1] == h;
    }
  }

  /** The position of `h` in the list, searched from the end. */
  method FindFromEnd(list: seq<Hash>, h: Hash) returns (pos: Option<nat>)
    ensures pos.Some? ==> pos.value < |list| && list[pos.value] == h
    ensures pos.None? ==> h !in list
  {
    var i := |list|;
    while i > 0
      invariant 0 <= i <= |list|
      invariant h !in list[i..]
    {
      if list[i - 1] == h {
        return Some(i - 1);
      }
      assert list[i - 1..] == [list[i - 1]] + list[i..];
      i := i - 1;
    }
    return None;
  }
}

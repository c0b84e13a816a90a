/** When the cached balance of a wallet is right although it was not recomputed, bitcoin/BRWallet.c. */
module WalletCache {
  import opened Wrappers
  import opened Transactions
  import opened WalletState
  import opened WalletBalance
  import opened BalanceUpdate
  import opened BalanceTheorems
  import opened WalletLedger

  ghost predicate IsAccepted(env: Env, txs: seq<Tx>, i: nat)
    requires i < |txs|
  {
    StatusAt(env, txs, i) == Accepted
  }

  ghost predicate NonePending(env: Env, txs: seq<Tx>) {
    forall i :: 0 <= i < |txs| ==> StatusAt(env, txs, i) != Pending
  }

  ghost predicate SomeSpends(env: Env, txs: seq<Tx>, o: Outpoint) {
    exists k :: 0 <= k < |txs| && IsAccepted(env, txs, k) && o in SpentBy(txs[k])
  }

  /** With nothing pending an output is unspent iff an accepted transaction provides it and none spends it. */
  lemma UnspentByAccepted(env: Env, txs: seq<Tx>, o: Outpoint)
    requires NonePending(env, txs)
    ensures o in Utxos(env, txs) <==> SomeProvides(env, txs, o) && !SomeSpends(env, txs, o)
  {
    hide StatusAt, SpentBy, Utxos;
    UtxoMeaning(env, txs, o);
    if SomeSpends(env, txs, o) {
      var k :| 0 <= k < |txs| && IsAccepted(env, txs, k) && o in SpentBy(txs[k]);
      assert Consumes(env, txs, k, k, o);
    }
    if SomeConsumes(env, txs, o) {
      var k, m :| 0 <= k <= m < |txs| && Consumes(env, txs, k, m, o);
      assert IsAccepted(env, txs, k);
    }
  }

  /** A transaction in both lists, the same up to its height and time. */
  ghost predicate IsTwin(t: Tx, u: Tx) {
    t.txHash == u.txHash && t.inputs == u.inputs && t.outputs == u.outputs
  }

  /** The accepted transactions of one list are accepted in the other. */
  ghost predicate AcceptedIn(env: Env, txs: seq<Tx>, other: Env, list: seq<Tx>) {
    forall i :: 0 <= i < |txs| && IsAccepted(env, txs, i) ==>
      exists j :: 0 <= j < |list| && IsAccepted(other, list, j) && IsTwin(txs[i], list[j])
  }

  lemma TwinsProvide(env: Env, txs: seq<Tx>, other: Env, list: seq<Tx>, o: Outpoint)
    requires other.pkhOf == env.pkhOf && other.owned == env.owned && AcceptedIn(env, txs, other, list)
    ensures SomeProvides(env, txs, o) ==> SomeProvides(other, list, o)
    ensures SomeSpends(env, txs, o) ==> SomeSpends(other, list, o)
  {
    hide StatusAt;
    if SomeProvides(env, txs, o) {
      var i :| 0 <= i < |txs| && Provides(env, txs, i, o);
      assert IsAccepted(env, txs, i);
      var j :| 0 <= j < |list| && IsAccepted(other, list, j) && IsTwin(txs[i], list[j]);
      assert Provides(other, list, j, o);
    }
    if SomeSpends(env, txs, o) {
      var i :| 0 <= i < |txs| && IsAccepted(env, txs, i) && o in SpentBy(txs[i]);
      var j :| 0 <= j < |list| && IsAccepted(other, list, j) && IsTwin(txs[i], list[j]);
      assert SpentBy(list[j]) == SpentBy(txs[i]);
    }
  }

  lemma {:induction false} SameTotal(a: map<Hash, Tx>, b: map<Hash, Tx>, s: seq<Outpoint>)
    requires forall o :: o in s ==> ValueOf(a, o) == ValueOf(b, o)
    ensures Total(a, s) == Total(b, s)
  {
    hide ValueOf;
    if s != [] {
      assert s[0] in s;
      SameTotal(a, b, s[1..]);
    }
  }

  lemma SameUnspent(env: Env, txs: seq<Tx>, other: Env, list: seq<Tx>)
    requires other.pkhOf == env.pkhOf && other.owned == env.owned
    requires NonePending(env, txs) && NonePending(other, list)
    requires AcceptedIn(env, txs, other, list) && AcceptedIn(other, list, env, txs)
    ensures forall o :: o in Utxos(env, txs) <==> o in Utxos(other, list)
  {
    hide NonePending, AcceptedIn, Utxos;
    forall o ensures o in Utxos(env, txs) <==> o in Utxos(other, list) {
      UnspentByAccepted(env, txs, o);
      UnspentByAccepted(other, list, o);
      TwinsProvide(env, txs, other, list, o);
      TwinsProvide(other, list, env, txs, o);
    }
  }

  lemma UnspentIsListed(env: Env, txs: seq<Tx>, o: Outpoint)
    requires o in Utxos(env, txs)
    ensures exists i :: 0 <= i < |txs| && txs[i].txHash == o.hash
  {
    UtxoMeaning(env, txs, o);
  }

  lemma SameWorth(env: Env, before: map<Hash, Tx>, after: map<Hash, Tx>, list: seq<Hash>)
    requires Indexed(after) && after.Keys <= before.Keys
    requires forall h :: h in after ==> IsTwin(before[h], after[h])
    requires forall h :: h in list ==> h in after
    ensures var s := Utxos(env, Listed(after, list)); Total(before, s) == Total(after, s)
  {
    var txs := Listed(after, list);
    hide Utxos, Total;
    forall o | o in Utxos(env, txs) ensures ValueOf(before, o) == ValueOf(after, o) {
      UnspentIsListed(env, txs, o);
    }
    SameTotal(before, after, Utxos(env, txs));
  }

  lemma ListedDistinct(allTx: map<Hash, Tx>, list: seq<Hash>)
    requires Indexed(allTx) && Distinct(list) && forall h :: h in list ==> h in allTx
    ensures DistinctHashes(Listed(allTx, list))
  {
    forall i | 0 <= i < |list| ensures Listed(allTx, list)[i].txHash == list[i] {
      assert list[i] in list;
    }
  }

  lemma StampedTwins(env: Env, before: map<Hash, Tx>, after: map<Hash, Tx>, touched: set<Hash>, height: nat, time: nat)
    requires Stamped(env.pkhOf, env.owned, before, after, touched, height, time) && Indexed(before)
    ensures Indexed(after) && after.Keys <= before.Keys && forall h :: h in after ==> IsTwin(before[h], after[h])
  {
    hide Concerns;
  }

  /** After heights and times were set and the list reordered, the unspent outputs and the balance are what
      they were, if nothing is pending before or after and the same transactions are accepted. */
  lemma CacheHolds(env: Env, other: Env, before: map<Hash, Tx>, after: map<Hash, Tx>, list: seq<Hash>, moved: seq<Hash>,
                   touched: set<Hash>, height: nat, time: nat)
    requires other.pkhOf == env.pkhOf && other.owned == env.owned
    requires Stamped(env.pkhOf, env.owned, before, after, touched, height, time) && Indexed(before)
    requires (forall h :: h in list ==> h in before) && (forall h :: h in moved ==> h in after)
    requires Distinct(list) && Distinct(moved)
    requires NonePending(env, Listed(before, list)) && NonePending(other, Listed(after, moved))
    requires AcceptedIn(env, Listed(before, list), other, Listed(after, moved))
    requires AcceptedIn(other, Listed(after, moved), env, Listed(before, list))
    ensures forall o :: o in Utxos(env, Listed(before, list)) <==> o in Utxos(other, Listed(after, moved))
    ensures Balance(env, before, Listed(before, list)) == Balance(other, after, Listed(after, moved))
  {
    StampedTwins(env, before, after, touched, height, time);
    hide NonePending, AcceptedIn, Utxos, Stamped, IsTwin, Total;
    var txs, now := Listed(before, list), Listed(after, moved);
    SameUnspent(env, txs, other, now);
    ListedDistinct(before, list);
    ListedDistinct(after, moved);
    UtxosDistinct(env, txs);
    UtxosDistinct(other, now);
    TotalOfPermutation(before, Utxos(env, txs), Utxos(other, now));
    SameWorth(other, before, after, moved);
  }

  // ----- association with the wallet

  /** A transaction concerns the wallet exactly if it has an output of those that the balance pass counts, or
      spends such an output of a known transaction. */
  lemma ConcernsExactly(env: Env, allTx: map<Hash, Tx>, tx: Tx)
    requires Indexed(allTx)
    ensures Concerns(env.pkhOf, env.owned, allTx, tx)
       <==> || OwnedOutputs(env, tx, |tx.outputs|) != []
            || exists o :: o in SpentBy(tx) && o.hash in allTx && o in OwnedOutputs(env, allTx[o.hash], |allTx[o.hash].outputs|)
  {
    hide OwnedOutputs;
    forall t: Tx, o ensures o in OwnedOutputs(env, t, |t.outputs|) <==> o.hash == t.txHash && o.n < |t.outputs| && IsOwned(env, t.outputs[o.n]) {
      OwnedMeaning(env, t, |t.outputs|, o);
    }
    var mine := OwnedOutputs(env, tx, |tx.outputs|);
    if mine != [] {
      assert mine[0] in mine;
      assert OwnsScript(env.pkhOf, env.owned, tx.outputs[mine[0].n]);
    }
    if j :| 0 <= j < |tx.outputs| && OwnsScript(env.pkhOf, env.owned, tx.outputs[j]) {
      assert Outpoint(tx.txHash, j) in mine;
    }
    if j :| 0 <= j < |tx.inputs| && SpendsOwned(env.pkhOf, env.owned, allTx, tx.inputs[j]) {
      assert Spends(tx.inputs[j]) in SpentBy(tx);
    }
    if o :| o in SpentBy(tx) && o.hash in allTx && o in OwnedOutputs(env, allTx[o.hash], |allTx[o.hash].outputs|) {
      var j :| 0 <= j < |tx.inputs| && Spends(tx.inputs[j]) == o;
      assert SpendsOwned(env.pkhOf, env.owned, allTx, tx.inputs[j]);
    }
  }
}

/** How one more transaction moves the balance of `_BRWalletUpdateBalance`, bitcoin/BRWallet.c, in amounts. */
module BalanceMoves {
  import opened Wrappers
  import opened Transactions
  import opened WalletState
  import opened WalletBalance
  import opened BalanceTheorems
  import opened BalanceClasses

  // ----- sums

  /** What the outputs pay to keys of the wallet. */
  function Received(env: Env, outputs: seq<TxOutput>): nat {
    if outputs == [] then 0
    else var pkh := env.pkhOf(outputs[0].script);
         (if pkh.Some? && pkh.value in env.owned then outputs[0].amount else 0) + Received(env, outputs[1..])
  }

  /** What known outputs hold that the inputs spend, as far as they are among the given ones. */
  function Taken(allTx: map<Hash, Tx>, coins: seq<Outpoint>, inputs: seq<TxInput>): nat
    requires forall o :: o in coins ==> o.hash in allTx && o.n < |allTx[o.hash].outputs|
  {
    if inputs == [] then 0
    else var o := Outpoint(inputs[0].txHash, inputs[0].index);
         (if o in coins then allTx[o.hash].outputs[o.n].amount else 0) + Taken(allTx, coins, inputs[1..])
  }

  /** What known outputs hold. */
  function Worth(allTx: map<Hash, Tx>, coins: seq<Outpoint>): nat
    requires forall o :: o in coins ==> o.hash in allTx && o.n < |allTx[o.hash].outputs|
  {
    if coins == [] then 0
    else allTx[coins[0].hash].outputs[coins[0].n].amount + Worth(allTx, coins[1..])
  }

  lemma {:induction false} WorthIsTotal(allTx: map<Hash, Tx>, coins: seq<Outpoint>)
    requires forall o :: o in coins ==> o.hash in allTx && o.n < |allTx[o.hash].outputs|
    ensures Worth(allTx, coins) == Total(allTx, coins)
  {
    if coins != [] {
      assert coins[0] in coins;
      WorthIsTotal(allTx, coins[1..]);
    }
  }

  // ----- spending

  lemma {:induction false} NoneDropped(allTx: map<Hash, Tx>, coins: seq<Outpoint>, o: Outpoint)
    requires o !in coins
    ensures Without(coins, {o}) == coins
  {
    if coins != [] {
      NoneDropped(allTx, coins[1..], o);
      assert coins == [coins[0]] + coins[1..];
    }
  }

  lemma {:induction false} OneDropped(allTx: map<Hash, Tx>, coins: seq<Outpoint>, o: Outpoint)
    requires Distinct(coins)
    ensures Total(allTx, Without(coins, {o})) + (if o in coins then ValueOf(allTx, o) else 0) == Total(allTx, coins)
  {
    if coins != [] {
      WithoutFirst(coins, {o});
      assert [] + Without(coins[1..], {o}) == Without(coins[1..], {o});
      if coins[0] == o {
        assert o !in coins[1..];
        NoneDropped(allTx, coins[1..], o);
      } else {
        OneDropped(allTx, coins[1..], o);
        assert ([coins[0]] + Without(coins[1..], {o}))[1..] == Without(coins[1..], {o});
      }
    }
  }

  lemma {:induction false} SameWithout(coins: seq<Outpoint>, a: set<Outpoint>, b: set<Outpoint>)
    requires forall o :: o in coins ==> (o in a <==> o in b)
    ensures Without(coins, a) == Without(coins, b)
  {
    if coins != [] {
      assert coins[0] in coins;
      SameWithout(coins[1..], a, b);
    }
  }

  function SpentFrom(inputs: seq<TxInput>): set<Outpoint> {
    set i | i in inputs :: Outpoint(i.txHash, i.index)
  }

  /** Inputs that spend different outputs take what these hold, each once. */
  lemma {:induction false} AllDropped(allTx: map<Hash, Tx>, coins: seq<Outpoint>, inputs: seq<TxInput>)
    requires Distinct(coins) && forall o :: o in coins ==> o.hash in allTx && o.n < |allTx[o.hash].outputs|
    requires forall i, j :: 0 <= i < j < |inputs| ==> Spends(inputs[i]) != Spends(inputs[j])
    ensures Total(allTx, Without(coins, SpentFrom(inputs))) + Taken(allTx, coins, inputs) == Total(allTx, coins)
  {
    if inputs == [] {
      assert SpentFrom(inputs) == {};
      KeptAll(coins);
    } else {
      var o, rest := Spends(inputs[0]), inputs[1..];
      AllDropped(allTx, coins, rest);
      assert o !in SpentFrom(rest);
      var left := Without(coins, SpentFrom(rest));
      WithoutDistinct(coins, SpentFrom(rest));
      WithoutMeaning(coins, SpentFrom(rest), o);
      OneDropped(allTx, left, o);
      assert SpentFrom(inputs) == SpentFrom(rest) + {o};
      WithoutTwice(coins, SpentFrom(rest), SpentFrom(inputs));
      forall x | x in left ensures x in SpentFrom(inputs) <==> x in {o} {
        WithoutMeaning(coins, SpentFrom(rest), x);
      }
      SameWithout(left, SpentFrom(inputs), {o});
    }
  }

  lemma {:induction false} KeptAll(coins: seq<Outpoint>)
    ensures Without(coins, {}) == coins
  {
    if coins != [] {
      KeptAll(coins[1..]);
      assert coins == [coins[0]] + coins[1..];
    }
  }

  // ----- receiving

  lemma {:induction false} ReceivedAppend(env: Env, a: seq<TxOutput>, o: TxOutput)
    ensures Received(env, a + [o]) == Received(env, a) + (if IsOwned(env, o) then o.amount else 0)
  {
    if a == [] {
      assert Received(env, []) == 0;
      assert [o][1..] == [];
    } else {
      ReceivedAppend(env, a[1..], o);
      assert (a + [o])[1..] == a[1..] + [o];
    }
  }

  lemma {:induction false} OwnedAreReceived(env: Env, allTx: map<Hash, Tx>, tx: Tx, n: nat)
    requires n <= |tx.outputs| && tx.txHash in allTx && allTx[tx.txHash].outputs == tx.outputs
    ensures Total(allTx, OwnedOutputs(env, tx, n)) == Received(env, tx.outputs[..n])
  {
    if n > 0 {
      OwnedAreReceived(env, allTx, tx, n - 1);
      ReceivedAppend(env, tx.outputs[..n - 1], tx.outputs[n - 1]);
      assert tx.outputs[..n] == tx.outputs[..n - 1] + [tx.outputs[n - 1]];
      var last := if IsOwned(env, tx.outputs[n - 1]) then [Outpoint(tx.txHash, n - 1)] else [];
      TotalConcat(allTx, OwnedOutputs(env, tx, n - 1), last);
      assert Total(allTx, []) == 0;
    }
  }

  // ----- the balance

  /** Nothing pending and nothing that spends from it comes before the transaction, and its inputs spend different
      outputs, none of them its own. */
  ghost predicate IsNext(env: Env, txs: seq<Tx>, tx: Tx) {
    && (forall k :: 0 <= k < |txs| ==> StatusAt(env, txs, k) != Pending)
    && (forall k, j :: 0 <= k < |txs| && 0 <= j < |txs[k].inputs| ==> txs[k].inputs[j].txHash != tx.txHash)
    && (forall j :: 0 <= j < |tx.inputs| ==> tx.inputs[j].txHash != tx.txHash)
    && forall i, j :: 0 <= i < j < |tx.inputs| ==> Spends(tx.inputs[i]) != Spends(tx.inputs[j])
  }

  lemma {:induction false} AllSettled(env: Env, txs: seq<Tx>)
    requires forall k :: 0 <= k < |txs| ==> StatusAt(env, txs, k) != Pending
    ensures BookOf(env, txs).settled == BookOf(env, txs).spent
  {
    if txs != [] {
      var n := |txs| - 1;
      forall k | 0 <= k < n ensures StatusAt(env, txs[..n], k) != Pending {
        assert txs[..n][..k] == txs[..k];
        assert StatusAt(env, txs, k) != Pending;
      }
      AllSettled(env, txs[..n]);
      assert StatusAt(env, txs, n) != Pending;
      hide Classify;
    }
  }

  /** Conservation: an accepted transaction adds what it pays to the wallet to the worth of the unspent outputs, and
      takes off what those that it spends hold. */
  lemma AcceptedMoves(env: Env, allTx: map<Hash, Tx>, txs: seq<Tx>, tx: Tx)
    requires DistinctHashes(txs) && IsNext(env, txs, tx) && StatusAt(env, txs + [tx], |txs|) == Accepted
    requires tx.txHash in allTx && allTx[tx.txHash].outputs == tx.outputs
    requires forall o :: o in Utxos(env, txs) ==> o.hash in allTx && o.n < |allTx[o.hash].outputs|
    requires forall o :: o in Utxos(env, txs + [tx]) ==> o.hash in allTx && o.n < |allTx[o.hash].outputs|
    ensures var before, after := Utxos(env, txs), Utxos(env, txs + [tx]);
            Worth(allTx, after) + Taken(allTx, before, tx.inputs) == Worth(allTx, before) + Received(env, tx.outputs)
  {
    assert (txs + [tx])[..|txs|] == txs;
    NextAccepted(env, txs, tx);
    UtxosDistinct(env, txs);
    assert forall i, j :: 0 <= i < j < |tx.inputs| ==> Spends(tx.inputs[i]) != Spends(tx.inputs[j]);
    hide Utxos, StatusAt, IsNext, DistinctHashes, OwnedOutputs, Worth, Taken, Received, Distinct, SpentFrom, Without, Total;
    Exchanged(env, allTx, Utxos(env, txs), Utxos(env, txs + [tx]), tx);
  }

  lemma Exchanged(env: Env, allTx: map<Hash, Tx>, before: seq<Outpoint>, after: seq<Outpoint>, tx: Tx)
    requires Distinct(before) && after == Without(before, SpentFrom(tx.inputs)) + OwnedOutputs(env, tx, |tx.outputs|)
    requires forall i, j :: 0 <= i < j < |tx.inputs| ==> Spends(tx.inputs[i]) != Spends(tx.inputs[j])
    requires tx.txHash in allTx && allTx[tx.txHash].outputs == tx.outputs
    requires forall o :: o in before ==> o.hash in allTx && o.n < |allTx[o.hash].outputs|
    requires forall o :: o in after ==> o.hash in allTx && o.n < |allTx[o.hash].outputs|
    ensures Worth(allTx, after) + Taken(allTx, before, tx.inputs) == Worth(allTx, before) + Received(env, tx.outputs)
  {
    hide Worth, Taken, Received, OwnedOutputs, Without, Total, SpentFrom;
    var mine := OwnedOutputs(env, tx, |tx.outputs|);
    AllDropped(allTx, before, tx.inputs);
    TotalConcat(allTx, Without(before, SpentFrom(tx.inputs)), mine);
    OwnedAreReceived(env, allTx, tx, |tx.outputs|);
    assert tx.outputs[..|tx.outputs|] == tx.outputs;
    WorthIsTotal(allTx, before);
    WorthIsTotal(allTx, after);
  }

  lemma NextAccepted(env: Env, txs: seq<Tx>, tx: Tx)
    requires IsNext(env, txs, tx) && StatusAt(env, txs + [tx], |txs|) == Accepted
    ensures Utxos(env, txs + [tx]) == Without(Utxos(env, txs), SpentFrom(tx.inputs)) + OwnedOutputs(env, tx, |tx.outputs|)
  {
    var before, mine := Utxos(env, txs), OwnedOutputs(env, tx, |tx.outputs|);
    var b := BookOf(env, txs);
    var gone := b.spent + SpentBy(tx);
    assert (txs + [tx])[..|txs|] == txs;
    assert Classify(env, b, tx) == Accepted;
    UtxosAccepted(env, txs, tx);
    BookOfAppend(env, txs, tx);
    AllSettled(env, txs);
    assert SpentFrom(tx.inputs) == SpentBy(tx);
    forall o | o in before ensures o in gone <==> o in SpentBy(tx) {
      WithoutMeaning(AllOwned(env, b.accepted), b.settled, o);
    }
    forall o | o in mine ensures o !in gone {
      OwnedMeaning(env, tx, |tx.outputs|, o);
      SpentMeaning(env, txs, o);
    }
    hide Utxos, StatusAt, OwnedOutputs, Classify, BookOf;
    WithoutConcat(before, mine, gone);
    SameWithout(before, gone, SpentBy(tx));
    SameWithout(mine, gone, {});
    KeptAll(mine);
  }

  /** One that is not accepted moves nothing. */
  lemma OthersMoveNothing(env: Env, txs: seq<Tx>, tx: Tx)
    requires StatusAt(env, txs + [tx], |txs|) != Accepted
    ensures Utxos(env, txs + [tx]) == Utxos(env, txs)
  {
    assert (txs + [tx])[..|txs|] == txs;
    UtxosSkipped(env, txs, tx);
  }

  /** The balance is what the unspent outputs hold, in 64 bits. */
  lemma BalanceIsWorth(env: Env, allTx: map<Hash, Tx>, txs: seq<Tx>)
    requires forall o :: o in Utxos(env, txs) ==> o.hash in allTx && o.n < |allTx[o.hash].outputs|
    ensures Balance(env, allTx, txs) == Worth(allTx, Utxos(env, txs)) % 0x1_0000_0000_0000_0000
  {
    WorthIsTotal(allTx, Utxos(env, txs));
  }
}

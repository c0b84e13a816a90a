/** What makes a transaction invalid or pending in the balance pass of bitcoin/BRWallet.c, in terms of the
    transactions before it. */
module BalanceClasses {
  import opened Wrappers
  import opened Transactions
  import opened WalletState
  import opened WalletBalance
  import opened BalanceUpdate
  import opened BalanceTheorems

  /** A transaction before the one at `i` has the class and the hash. */
  ghost predicate HasParent(env: Env, txs: seq<Tx>, i: nat, h: Hash, status: Status)
    requires i < |txs|
  {
    exists k :: 0 <= k < i && StatusAt(env, txs, k) == status && txs[k].txHash == h
  }

  /** A transaction before the one at `i` that is not invalid spends the output. */
  ghost predicate IsTaken(env: Env, txs: seq<Tx>, i: nat, o: Outpoint)
    requires i < |txs|
  {
    exists k, j :: 0 <= k < i && StatusAt(env, txs, k) != Invalid
                   && 0 <= j < |txs[k].inputs| && txs[k].inputs[j].txHash == o.hash && txs[k].inputs[j].index == o.n
  }

  lemma {:induction false} ClassesMeaning(env: Env, txs: seq<Tx>, h: Hash)
    ensures h in BookOf(env, txs).invalid
       <==> exists k :: 0 <= k < |txs| && StatusAt(env, txs, k) == Invalid && txs[k].txHash == h
    ensures h in BookOf(env, txs).pending
       <==> exists k :: 0 <= k < |txs| && StatusAt(env, txs, k) == Pending && txs[k].txHash == h
  {
    if txs != [] {
      hide BookOf, StatusAt, Classify;
      var n := |txs| - 1;
      ClassesMeaning(env, txs[..n], h);
      LastEntered(env, txs);
      assert forall k :: 0 <= k < n ==> txs[..n][k] == txs[k];
    }
  }

  lemma ParentMeaning(env: Env, txs: seq<Tx>, i: nat, h: Hash)
    requires i < |txs|
    ensures h in BookOf(env, txs[..i]).invalid <==> HasParent(env, txs, i, h, Invalid)
    ensures h in BookOf(env, txs[..i]).pending <==> HasParent(env, txs, i, h, Pending)
  {
    ClassesMeaning(env, txs[..i], h);
    forall k | 0 <= k < i ensures StatusAt(env, txs[..i], k) == StatusAt(env, txs, k) {
      PrefixStatus(env, txs, i, k);
    }
    hide BookOf, StatusAt;
  }

  lemma TakenMeaning(env: Env, txs: seq<Tx>, i: nat, o: Outpoint)
    requires i < |txs|
    ensures o in BookOf(env, txs[..i]).spent <==> IsTaken(env, txs, i, o)
  {
    SpentMeaning(env, txs[..i], o);
    forall k | 0 <= k < i ensures StatusAt(env, txs[..i], k) == StatusAt(env, txs, k) {
      PrefixStatus(env, txs, i, k);
    }
    hide BookOf, StatusAt;
  }

  /** Invalid are exactly the unconfirmed transactions with an input that a transaction before, not invalid, has
      taken, or that comes from an invalid transaction before. */
  lemma InvalidExactly(env: Env, txs: seq<Tx>, i: nat)
    requires i < |txs|
    ensures StatusAt(env, txs, i) == Invalid
       <==> && txs[i].blockHeight == TX_UNCONFIRMED
            && exists j :: 0 <= j < |txs[i].inputs|
                 && (|| IsTaken(env, txs, i, Outpoint(txs[i].inputs[j].txHash, txs[i].inputs[j].index))
                     || HasParent(env, txs, i, txs[i].inputs[j].txHash, Invalid))
  {
    var tx := txs[i];
    forall j | 0 <= j < |tx.inputs|
      ensures Spends(tx.inputs[j]) in BookOf(env, txs[..i]).spent
         <==> IsTaken(env, txs, i, Outpoint(tx.inputs[j].txHash, tx.inputs[j].index))
      ensures tx.inputs[j].txHash in BookOf(env, txs[..i]).invalid <==> HasParent(env, txs, i, tx.inputs[j].txHash, Invalid)
    {
      TakenMeaning(env, txs, i, Spends(tx.inputs[j]));
      ParentMeaning(env, txs, i, tx.inputs[j].txHash);
    }
    hide BookOf, IsTaken, HasParent, IsPending;
  }

  /** The output is below the smallest that may be sent, 546. */
  predicate IsDust(o: TxOutput) { o.amount < 546 }

  /** The input leaves the transaction open to replacement, or to a lock time that has not been reached. */
  predicate IsOpen(env: Env, tx: Tx, i: TxInput) {
    || i.sequence <= 0xffff_fffd
    || (i.sequence == 0xffff_fffe
        && (tx.lockTime > env.now || (tx.lockTime < 500000000 && tx.lockTime > (env.blockHeight + 1) % 0x1_0000_0000)))
  }

  lemma HoldsBackMeans(env: Env, pending: set<Hash>, tx: Tx, i: TxInput)
    requires i.sequence <= UINT32_MAX
    ensures HoldsBack(env, pending, tx, i) <==> IsOpen(env, tx, i) || i.txHash in pending
  {
  }

  /** Pending are exactly the unconfirmed transactions, not invalid, that are too large, pay out dust, are open, or
      spend an output of a pending transaction before. */
  lemma PendingExactly(env: Env, txs: seq<Tx>, i: nat)
    requires i < |txs| && forall j :: 0 <= j < |txs[i].inputs| ==> txs[i].inputs[j].sequence <= UINT32_MAX
    ensures StatusAt(env, txs, i) == Pending
       <==> && txs[i].blockHeight == TX_UNCONFIRMED && StatusAt(env, txs, i) != Invalid
            && (|| VSize(txs[i]) > 100000
                || (exists j :: 0 <= j < |txs[i].outputs| && IsDust(txs[i].outputs[j]))
                || (exists j :: 0 <= j < |txs[i].inputs| && IsOpen(env, txs[i], txs[i].inputs[j]))
                || (exists j :: 0 <= j < |txs[i].inputs| && HasParent(env, txs, i, txs[i].inputs[j].txHash, Pending)))
  {
    var tx := txs[i];
    forall j | 0 <= j < |tx.inputs|
      ensures HoldsBack(env, BookOf(env, txs[..i]).pending, tx, tx.inputs[j])
         <==> IsOpen(env, tx, tx.inputs[j]) || HasParent(env, txs, i, tx.inputs[j].txHash, Pending)
    {
      HoldsBackMeans(env, BookOf(env, txs[..i]).pending, tx, tx.inputs[j]);
      ParentMeaning(env, txs, i, tx.inputs[j].txHash);
    }
    assert forall j :: 0 <= j < |tx.outputs| ==> (IsDust(tx.outputs[j]) <==> tx.outputs[j].amount < TX_MIN_OUTPUT_AMOUNT);
    hide BookOf, HasParent, IsInvalid, HoldsBack, IsOpen, VSize, IsDust;
  }

  /** Everything else is accepted. */
  lemma AcceptedExactly(env: Env, txs: seq<Tx>, i: nat)
    requires i < |txs|
    ensures StatusAt(env, txs, i) == Accepted <==> StatusAt(env, txs, i) != Invalid && StatusAt(env, txs, i) != Pending
    ensures txs[i].blockHeight != TX_UNCONFIRMED ==> StatusAt(env, txs, i) == Accepted
  {
  }

  /** Whoever spends an output of an invalid transaction is invalid as well, at any distance, until confirmed: the
      classes of a chain of unconfirmed spenders are all invalid. */
  lemma {:induction false} DescendantsAreInvalid(env: Env, txs: seq<Tx>, chain: seq<nat>)
    requires chain != [] && forall m :: 0 <= m < |chain| ==> chain[m] < |txs|
    requires forall m :: 0 < m < |chain| ==> chain[m - 1] < chain[m] && SpendsOutputOf(txs, chain[m], chain[m - 1])
    requires StatusAt(env, txs, chain[0]) == Invalid
    ensures StatusAt(env, txs, chain[|chain| - 1]) == Invalid
    decreases |chain|
  {
    hide StatusAt;
    var n := |chain| - 1;
    if n > 0 {
      DescendantsAreInvalid(env, txs, chain[..n]);
      InvalidExactly(env, txs, chain[n]);
      var j :| 0 <= j < |txs[chain[n]].inputs| && txs[chain[n]].inputs[j].txHash == txs[chain[n - 1]].txHash;
      assert HasParent(env, txs, chain[n], txs[chain[n]].inputs[j].txHash, Invalid);
    }
  }

  predicate SpendsOutputOf(txs: seq<Tx>, i: nat, k: nat)
    requires i < |txs| && k < |txs|
  {
    txs[i].blockHeight == TX_UNCONFIRMED && exists j :: 0 <= j < |txs[i].inputs| && txs[i].inputs[j].txHash == txs[k].txHash
  }

  // ----- keys in use

  lemma {:induction false} AllPaidMeaning(env: Env, txs: seq<Tx>, pkh: PKH)
    ensures pkh in AllPaidTo(env, txs)
       <==> pkh in env.owned && exists i, j :: 0 <= i < |txs| && 0 <= j < |txs[i].outputs| && env.pkhOf(txs[i].outputs[j].script) == Some(pkh)
  {
    if txs != [] {
      var n := |txs| - 1;
      AllPaidMeaning(env, txs[..n], pkh);
      if pkh in AllPaidTo(env, txs[..n]) {
        var i, j :| 0 <= i < n && 0 <= j < |txs[..n][i].outputs| && env.pkhOf(txs[..n][i].outputs[j].script) == Some(pkh);
        assert txs[i] == txs[..n][i];
      }
      if pkh in PaidTo(env, txs[n], |txs[n].outputs|) {
        var j :| 0 <= j < |txs[n].outputs| && IsOwned(env, txs[n].outputs[j]) && env.pkhOf(txs[n].outputs[j].script).value == pkh;
        assert env.pkhOf(txs[n].outputs[j].script) == Some(pkh);
      }
      if pkh in env.owned && exists i, j :: 0 <= i < |txs| && 0 <= j < |txs[i].outputs| && env.pkhOf(txs[i].outputs[j].script) == Some(pkh) {
        var i, j :| 0 <= i < |txs| && 0 <= j < |txs[i].outputs| && env.pkhOf(txs[i].outputs[j].script) == Some(pkh);
        if i < n {
          assert txs[..n][i] == txs[i];
        } else {
          assert IsOwned(env, txs[n].outputs[j]);
        }
      }
    }
  }

  /** A key is in use exactly if it is the wallet's and an accepted transaction pays to it. */
  lemma UsedExactly(env: Env, txs: seq<Tx>, pkh: PKH)
    ensures pkh in AllPaidTo(env, BookOf(env, txs).accepted)
       <==> pkh in env.owned && exists i, j :: 0 <= i < |txs| && StatusAt(env, txs, i) == Accepted
                                               && 0 <= j < |txs[i].outputs| && env.pkhOf(txs[i].outputs[j].script) == Some(pkh)
  {
    AllPaidMeaning(env, BookOf(env, txs).accepted, pkh);
    forall t: Tx ensures t in BookOf(env, txs).accepted <==> exists i :: 0 <= i < |txs| && StatusAt(env, txs, i) == Accepted && txs[i] == t {
      AcceptedMeaning(env, txs, t);
    }
    hide BookOf, StatusAt, AllPaidTo;
    var accepted := BookOf(env, txs).accepted;
    if i, j :| 0 <= i < |accepted| && 0 <= j < |accepted[i].outputs| && env.pkhOf(accepted[i].outputs[j].script) == Some(pkh) {
      assert accepted[i] in accepted;
    }
    if i, j :| 0 <= i < |txs| && StatusAt(env, txs, i) == Accepted
               && 0 <= j < |txs[i].outputs| && env.pkhOf(txs[i].outputs[j].script) == Some(pkh) {
      assert txs[i] in accepted;
      var k :| 0 <= k < |accepted| && accepted[k] == txs[i];
    }
  }

  lemma {:induction false} AcceptedMeaning(env: Env, txs: seq<Tx>, t: Tx)
    ensures t in BookOf(env, txs).accepted <==> exists i :: 0 <= i < |txs| && StatusAt(env, txs, i) == Accepted && txs[i] == t
  {
    if txs != [] {
      hide BookOf, StatusAt, Classify;
      var n := |txs| - 1;
      AcceptedMeaning(env, txs[..n], t);
      LastEntered(env, txs);
      assert forall k :: 0 <= k < n ==> txs[..n][k] == txs[k];
    }
  }

  // ----- totals

  /** How far a sequence of balances moves, from zero, whichever way. */
  function Travelled(hist: seq<nat>, from: nat): nat {
    if hist == [] then 0
    else (if hist[0] > from then hist[0] - from else from - hist[0]) + Travelled(hist[1..], hist[0])
  }

  lemma {:induction false} TravelledAppend(hist: seq<nat>, from: nat, b: nat)
    ensures Travelled(hist + [b], from)
         == Travelled(hist, from) + (var last := if hist == [] then from else hist[|hist| - 1]; if b > last then b - last else last - b)
  {
    if hist == [] {
      assert Travelled([], b) == 0;
    } else {
      TravelledAppend(hist[1..], hist[0], b);
      assert (hist + [b])[1..] == hist[1..] + [b];
    }
  }

  /** What was received and sent makes up every movement of the balance, and the difference is where it ends. */
  lemma {:induction false} TotalsAreMovements(hist: seq<nat>)
    ensures Rises(hist) + Falls(hist) == Travelled(hist, 0)
    ensures Rises(hist) - Falls(hist) == if hist == [] then 0 else hist[|hist| - 1]
  {
    if hist != [] {
      var n := |hist| - 1;
      TotalsAreMovements(hist[..n]);
      TravelledAppend(hist[..n], 0, hist[n]);
      assert hist[..n] + [hist[n]] == hist;
    }
  }
}

/** What the balance pass means, independent of the order it works in. */
module BalanceTheorems {
  import opened Wrappers
  import opened Transactions
  import opened WalletState
  import opened WalletBalance
  import opened BalanceUpdate

  // ----- which outputs are unspent

  /** The transaction at `i` is accepted and its output `o` pays to the wallet. */
  ghost predicate Provides(env: Env, txs: seq<Tx>, i: nat, o: Outpoint)
    requires i < |txs|
  {
    && StatusAt(env, txs, i) == Accepted
    && o.hash == txs[i].txHash && o.n < |txs[i].outputs| && IsOwned(env, txs[i].outputs[o.n])
  }

  /** The transaction at `k` is not invalid, spends `o`, and stands no later than the accepted one at `m`. */
  ghost predicate Consumes(env: Env, txs: seq<Tx>, k: nat, m: nat, o: Outpoint)
    requires k <= m < |txs|
  {
    StatusAt(env, txs, m) == Accepted && StatusAt(env, txs, k) != Invalid && o in SpentBy(txs[k])
  }

  lemma PrefixStatus(env: Env, txs: seq<Tx>, n: nat, i: nat)
    requires i < n <= |txs|
    ensures StatusAt(env, txs[..n], i) == StatusAt(env, txs, i)
  {
    assert txs[..n][..i] == txs[..i];
  }

  /** The last transaction of a list, classified after the others. */
  lemma LastEntered(env: Env, txs: seq<Tx>)
    requires txs != []
    ensures var n := |txs| - 1;
            var b := BookOf(env, txs[..n]);
            && BookOf(env, txs) == Enter(env, b, txs[n])
            && StatusAt(env, txs, n) == Classify(env, b, txs[n])
            && forall k :: 0 <= k < n ==> StatusAt(env, txs[..n], k) == StatusAt(env, txs, k)
  {
    var n := |txs| - 1;
    forall k | 0 <= k < n ensures StatusAt(env, txs[..n], k) == StatusAt(env, txs, k) {
      PrefixStatus(env, txs, n, k);
    }
  }

  lemma EnterEffects(env: Env, b: Book, tx: Tx, o: Outpoint)
    ensures var c, e := Classify(env, b, tx), Enter(env, b, tx);
            && (o in e.spent <==> o in b.spent || (c != Invalid && o in SpentBy(tx)))
            && (o in e.settled <==> if c == Accepted then o in b.spent || o in SpentBy(tx) else o in b.settled)
            && e.accepted == if c == Accepted then b.accepted + [tx] else b.accepted
  {
  }

  lemma {:induction false} SpentMeaning(env: Env, txs: seq<Tx>, o: Outpoint)
    ensures o in BookOf(env, txs).spent
       <==> exists k :: 0 <= k < |txs| && StatusAt(env, txs, k) != Invalid && o in SpentBy(txs[k])
  {
    if txs != [] {
      hide BookOf, StatusAt, Classify, Enter, SpentBy;
      var n := |txs| - 1;
      SpentMeaning(env, txs[..n], o);
      LastEntered(env, txs);
      EnterEffects(env, BookOf(env, txs[..n]), txs[n], o);
      if k :| 0 <= k < n && StatusAt(env, txs[..n], k) != Invalid && o in SpentBy(txs[..n][k]) {
        assert StatusAt(env, txs, k) != Invalid && o in SpentBy(txs[k]);
      }
      if k :| 0 <= k < n && StatusAt(env, txs, k) != Invalid && o in SpentBy(txs[k]) {
        assert StatusAt(env, txs[..n], k) != Invalid && o in SpentBy(txs[..n][k]);
      }
    }
  }

  ghost predicate SomeConsumes(env: Env, txs: seq<Tx>, o: Outpoint) {
    exists k, m :: 0 <= k <= m < |txs| && Consumes(env, txs, k, m, o)
  }

  ghost predicate SomeProvides(env: Env, txs: seq<Tx>, o: Outpoint) {
    exists i :: 0 <= i < |txs| && Provides(env, txs, i, o)
  }

  lemma ConsumesInPrefix(env: Env, txs: seq<Tx>, n: nat, o: Outpoint)
    requires n <= |txs|
    ensures SomeConsumes(env, txs[..n], o)
       <==> exists k, m :: 0 <= k <= m < n && Consumes(env, txs, k, m, o)
  {
    forall k | 0 <= k < n ensures StatusAt(env, txs[..n], k) == StatusAt(env, txs, k) {
      PrefixStatus(env, txs, n, k);
    }
    hide StatusAt, SpentBy;
    if SomeConsumes(env, txs[..n], o) {
      var k, m :| 0 <= k <= m < n && Consumes(env, txs[..n], k, m, o);
      assert Consumes(env, txs, k, m, o);
    }
    if k, m :| 0 <= k <= m < n && Consumes(env, txs, k, m, o) {
      assert Consumes(env, txs[..n], k, m, o);
    }
  }

  /** An accepted transaction at the end settles all that is spent, any other leaves it at what was. */
  lemma ConsumesLast(env: Env, txs: seq<Tx>, o: Outpoint)
    requires txs != []
    ensures var n := |txs| - 1;
            SomeConsumes(env, txs, o)
            <==> if StatusAt(env, txs, n) == Accepted
                 then exists k :: 0 <= k < |txs| && StatusAt(env, txs, k) != Invalid && o in SpentBy(txs[k])
                 else SomeConsumes(env, txs[..n], o)
  {
    hide StatusAt, SpentBy;
    var n := |txs| - 1;
    if StatusAt(env, txs, n) == Accepted {
      forall k | 0 <= k < |txs| && StatusAt(env, txs, k) != Invalid && o in SpentBy(txs[k]) ensures Consumes(env, txs, k, n, o) {
      }
    } else {
      ConsumesInPrefix(env, txs, n, o);
      forall k, m | 0 <= k <= m < |txs| && Consumes(env, txs, k, m, o) ensures m < n {
      }
    }
  }

  lemma {:induction false} SettledMeaning(env: Env, txs: seq<Tx>, o: Outpoint)
    ensures o in BookOf(env, txs).settled <==> SomeConsumes(env, txs, o)
  {
    if txs != [] {
      hide BookOf, StatusAt, Classify, Enter, SpentBy, SomeConsumes;
      var n := |txs| - 1;
      SettledMeaning(env, txs[..n], o);
      SpentMeaning(env, txs, o);
      ConsumesLast(env, txs, o);
      LastEntered(env, txs);
      EnterEffects(env, BookOf(env, txs[..n]), txs[n], o);
    } else {
      assert BookOf(env, txs) == EMPTY;
    }
  }

  lemma {:induction false} OwnedMeaning(env: Env, tx: Tx, n: nat, o: Outpoint)
    requires n <= |tx.outputs|
    ensures o in OwnedOutputs(env, tx, n) <==> o.hash == tx.txHash && o.n < n && IsOwned(env, tx.outputs[o.n])
  {
    if n > 0 {
      OwnedMeaning(env, tx, n - 1, o);
    }
  }

  lemma {:induction false} AllOwnedMeaning(env: Env, txs: seq<Tx>, o: Outpoint)
    ensures o in AllOwned(env, BookOf(env, txs).accepted) <==> SomeProvides(env, txs, o)
  {
    if txs != [] {
      hide BookOf, StatusAt, Classify, Enter, SpentBy, OwnedOutputs, IsOwned, AllOwned, SomeProvides;
      var n := |txs| - 1;
      var b := BookOf(env, txs[..n]);
      AllOwnedMeaning(env, txs[..n], o);
      LastEntered(env, txs);
      EnterEffects(env, b, txs[n], o);
      OwnedMeaning(env, txs[n], |txs[n].outputs|, o);
      AllOwnedAppend(env, b.accepted, txs[n]);
      ProvidesLast(env, txs, o);
      MemberConcat(AllOwned(env, b.accepted), OwnedOutputs(env, txs[n], |txs[n].outputs|), o);
    } else {
      assert BookOf(env, txs) == EMPTY;
    }
  }

  lemma MemberConcat<T>(a: seq<T>, b: seq<T>, x: T)
    ensures x in a + b <==> x in a || x in b
  {
  }

  lemma ProvidesLast(env: Env, txs: seq<Tx>, o: Outpoint)
    requires txs != []
    ensures SomeProvides(env, txs, o)
       <==> SomeProvides(env, txs[..|txs| - 1], o) || Provides(env, txs, |txs| - 1, o)
  {
    var n := |txs| - 1;
    forall k | 0 <= k < n ensures StatusAt(env, txs[..n], k) == StatusAt(env, txs, k) {
      PrefixStatus(env, txs, n, k);
    }
    hide StatusAt, IsOwned;
    if k :| 0 <= k < n && Provides(env, txs[..n], k, o) {
      assert Provides(env, txs, k, o);
    }
    if k :| 0 <= k < n && Provides(env, txs, k, o) {
      assert Provides(env, txs[..n], k, o);
    }
  }

  lemma AllOwnedAppend(env: Env, txs: seq<Tx>, tx: Tx)
    ensures AllOwned(env, txs + [tx]) == AllOwned(env, txs) + OwnedOutputs(env, tx, |tx.outputs|)
  {
    assert (txs + [tx])[..|txs|] == txs;
  }

  lemma {:induction false} WithoutMeaning(s: seq<Outpoint>, gone: set<Outpoint>, o: Outpoint)
    ensures o in Without(s, gone) <==> o in s && o !in gone
  {
    if s != [] {
      WithoutMeaning(s[1..], gone, o);
    }
  }

  /** The unspent outputs are exactly the wallet-owned outputs of transactions classed neither
      invalid nor pending, minus all inputs of transactions not classed invalid up to the last
      accepted one. */
  lemma UtxoMeaning(env: Env, txs: seq<Tx>, o: Outpoint)
    ensures o in Utxos(env, txs) <==> SomeProvides(env, txs, o) && !SomeConsumes(env, txs, o)
  {
    var b := BookOf(env, txs);
    WithoutMeaning(AllOwned(env, b.accepted), b.settled, o);
    AllOwnedMeaning(env, txs, o);
    SettledMeaning(env, txs, o);
  }

  /** An output is both unspent and in the spent set exactly when the wallet got it, no transaction
      up to the last accepted one takes it, and a pending one, necessarily later, spends it. */
  lemma UnspentAndSpent(env: Env, txs: seq<Tx>, o: Outpoint)
    ensures o in Utxos(env, txs) && o in BookOf(env, txs).spent
       <==> && SomeProvides(env, txs, o) && !SomeConsumes(env, txs, o)
            && exists k :: 0 <= k < |txs| && StatusAt(env, txs, k) == Pending && o in SpentBy(txs[k])
  {
    hide Utxos, BookOf, StatusAt, SpentBy;
    UtxoMeaning(env, txs, o);
    SpentMeaning(env, txs, o);
    if !SomeConsumes(env, txs, o) {
      forall k | 0 <= k < |txs| && StatusAt(env, txs, k) != Invalid && o in SpentBy(txs[k]) ensures StatusAt(env, txs, k) == Pending {
        assert !Consumes(env, txs, k, k, o);
      }
    }
  }

  /** One more transaction that spends a coin: accepted it takes it, pending it leaves it both unspent
      and in the spent set, invalid it changes nothing about it. */
  lemma TrailingPendingKeepsCoins(env: Env, txs: seq<Tx>, tx: Tx, o: Outpoint)
    requires o in SpentBy(tx) && o in Utxos(env, txs)
    ensures StatusAt(env, txs + [tx], |txs|) == Accepted ==> o !in Utxos(env, txs + [tx])
    ensures StatusAt(env, txs + [tx], |txs|) == Pending ==>
              o in Utxos(env, txs + [tx]) && o in BookOf(env, txs + [tx]).spent
    ensures StatusAt(env, txs + [tx], |txs|) == Invalid ==>
              o in Utxos(env, txs + [tx]) && (o in BookOf(env, txs + [tx]).spent <==> o in BookOf(env, txs).spent)
  {
    assert (txs + [tx])[..|txs|] == txs;
    BookOfAppend(env, txs, tx);
    if StatusAt(env, txs + [tx], |txs|) == Accepted {
      UtxosAccepted(env, txs, tx);
      WithoutMeaning(Utxos(env, txs) + OwnedOutputs(env, tx, |tx.outputs|), BookOf(env, txs + [tx]).spent, o);
    } else {
      UtxosSkipped(env, txs, tx);
    }
  }

  // ----- balances

  lemma {:induction false} HistoryAt(env: Env, allTx: map<Hash, Tx>, txs: seq<Tx>, i: nat)
    requires i < |txs|
    ensures |History(env, allTx, txs)| == |txs|
    ensures History(env, allTx, txs)[i] == Balance(env, allTx, txs[..i + 1])
  {
    HistoryCount(env, allTx, txs);
    if i == |txs| - 1 {
      assert txs[..i + 1] == txs;
      HistoryCount(env, allTx, txs[..i]);
    } else {
      HistoryAt(env, allTx, txs[..|txs| - 1], i);
      assert txs[..|txs| - 1][..i + 1] == txs[..i + 1];
    }
  }

  lemma {:induction false} RisesMinusFalls(hist: seq<nat>)
    ensures Rises(hist) - Falls(hist) == Last(hist)
  {
    if hist != [] {
      RisesMinusFalls(hist[..|hist| - 1]);
    }
  }

  /** After the pass: balance = sum of the unspent outputs = received - sent, in 64-bit
      arithmetic, and every entry of the history is the balance of a prefix. */
  lemma BalanceIdentities(w: Wallet, now: int)
    requires w.Valid() && UpToDate(w, now)
    ensures w.balance == Total(w.allTx, w.utxos) % UINT64
    ensures w.balance == (w.totalReceived - w.totalSent) % UINT64
    ensures |w.balanceHist| == |w.transactions|
    ensures forall i :: 0 <= i < |w.transactions| ==>
              w.balanceHist[i] == Balance(EnvOf(w, now), w.allTx, Listed(w.allTx, w.transactions)[..i + 1])
  {
    hide Utxos, Rises, Falls, History, Total;
    var env, txs := EnvOf(w, now), Listed(w.allTx, w.transactions);
    RisesMinusFalls(w.balanceHist);
    HistoryCount(env, w.allTx, txs);
    forall i | 0 <= i < |txs| ensures w.balanceHist[i] == Balance(env, w.allTx, txs[..i + 1]) {
      HistoryAt(env, w.allTx, txs, i);
    }
    if txs != [] {
      HistoryAt(env, w.allTx, txs, |txs| - 1);
      assert txs[..|txs|] == txs;
    } else {
      NothingListed(env, w.allTx);
    }
    DifferenceModulo(Rises(w.balanceHist), Falls(w.balanceHist));
  }

  lemma NothingListed(env: Env, allTx: map<Hash, Tx>)
    ensures Utxos(env, []) == [] && Total(allTx, []) == 0
  {
  }

  lemma DifferenceModulo(a: nat, b: nat)
    ensures (a % UINT64 - b % UINT64) % UINT64 == (a - b) % UINT64
  {
    var k := a / UINT64 - b / UINT64;
    assert a - b == (a % UINT64 - b % UINT64) + k * UINT64;
  }

  // ----- order does not matter when everything is confirmed

  ghost predicate AllConfirmed(txs: seq<Tx>) {
    forall i :: 0 <= i < |txs| ==> txs[i].blockHeight != TX_UNCONFIRMED
  }

  lemma ConfirmedProvides(env: Env, txs: seq<Tx>, o: Outpoint)
    requires AllConfirmed(txs)
    ensures SomeProvides(env, txs, o)
       <==> exists tx :: tx in txs && o.hash == tx.txHash && o.n < |tx.outputs| && IsOwned(env, tx.outputs[o.n])
    ensures SomeProvides(env, txs, o) && SomeConsumes(env, txs, o)
       <==> SomeProvides(env, txs, o) && exists tx :: tx in txs && o in SpentBy(tx)
  {
    forall i | 0 <= i < |txs| ensures StatusAt(env, txs, i) == Accepted {
      ConfirmedIsAccepted(env, BookOf(env, txs[..i]), txs[i]);
    }
    hide StatusAt, SpentBy, IsOwned;
    if tx :| tx in txs && o.hash == tx.txHash && o.n < |tx.outputs| && IsOwned(env, tx.outputs[o.n]) {
      var i :| 0 <= i < |txs| && txs[i] == tx;
      assert Provides(env, txs, i, o);
    }
    if tx :| tx in txs && o in SpentBy(tx) {
      var k :| 0 <= k < |txs| && txs[k] == tx;
      assert Consumes(env, txs, k, k, o);
    }
  }

  lemma SameMembers(env: Env, txs: seq<Tx>, other: seq<Tx>, o: Outpoint)
    requires AllConfirmed(txs) && multiset(txs) == multiset(other)
    ensures o in Utxos(env, txs) <==> o in Utxos(env, other)
  {
    forall tx ensures tx in txs <==> tx in other {
      assert tx in multiset(txs) <==> tx in multiset(other);
    }
    forall i | 0 <= i < |other| ensures other[i].blockHeight != TX_UNCONFIRMED {
      assert other[i] in txs;
    }
    UtxoMeaning(env, txs, o);
    UtxoMeaning(env, other, o);
    ConfirmedProvides(env, txs, o);
    ConfirmedProvides(env, other, o);
  }

  ghost predicate DistinctHashes(txs: seq<Tx>) {
    forall i, j :: 0 <= i < j < |txs| ==> txs[i].txHash != txs[j].txHash
  }

  lemma {:induction false} OwnedDistinct(env: Env, tx: Tx, n: nat)
    requires n <= |tx.outputs|
    ensures Distinct(OwnedOutputs(env, tx, n))
    ensures forall o :: o in OwnedOutputs(env, tx, n) ==> o.hash == tx.txHash && o.n < n
  {
    if n > 0 {
      OwnedDistinct(env, tx, n - 1);
    }
  }

  lemma {:induction false} AllOwnedDistinct(env: Env, txs: seq<Tx>)
    requires DistinctHashes(txs)
    ensures Distinct(AllOwned(env, txs))
    ensures forall o :: o in AllOwned(env, txs) ==> exists i :: 0 <= i < |txs| && txs[i].txHash == o.hash
  {
    if txs != [] {
      var n := |txs| - 1;
      var a, b := AllOwned(env, txs[..n]), OwnedOutputs(env, txs[n], |txs[n].outputs|);
      AllOwnedDistinct(env, txs[..n]);
      OwnedDistinct(env, txs[n], |txs[n].outputs|);
      forall o | o in a ensures o !in b && exists i :: 0 <= i < |txs| && txs[i].txHash == o.hash {
        var i :| 0 <= i < n && txs[..n][i].txHash == o.hash;
        assert txs[i].txHash == o.hash;
      }
      DistinctConcat(a, b);
    }
  }

  lemma DistinctConcat<T>(a: seq<T>, b: seq<T>)
    requires Distinct(a) && Distinct(b) && forall x :: x in a ==> x !in b
    ensures Distinct(a + b)
  {
    forall i, j | 0 <= i < j < |a + b| ensures (a + b)[i] != (a + b)[j] {
      if i < |a| && j >= |a| {
        assert a[i] in a && b[j - |a|] in b;
      }
    }
  }

  lemma {:induction false} WithoutDistinct(s: seq<Outpoint>, gone: set<Outpoint>)
    requires Distinct(s)
    ensures Distinct(Without(s, gone))
  {
    if s != [] {
      WithoutDistinct(s[1..], gone);
      WithoutMeaning(s[1..], gone, s[0]);
    }
  }

  lemma {:induction false} AcceptedDistinct(env: Env, txs: seq<Tx>)
    requires DistinctHashes(txs)
    ensures DistinctHashes(BookOf(env, txs).accepted)
    ensures forall tx :: tx in BookOf(env, txs).accepted ==> tx in txs
  {
    if txs != [] {
      var n := |txs| - 1;
      AcceptedDistinct(env, txs[..n]);
      LastEntered(env, txs);
      hide BookOf, Classify, Enter;
      var accepted := BookOf(env, txs[..n]).accepted;
      EnterEffects(env, BookOf(env, txs[..n]), txs[n], Outpoint(0, 0));
      forall i | 0 <= i < |accepted| ensures accepted[i].txHash != txs[n].txHash {
        assert accepted[i] in txs[..n];
      }
    }
  }

  /** Nothing is listed as unspent twice. */
  lemma UtxosDistinct(env: Env, txs: seq<Tx>)
    requires DistinctHashes(txs)
    ensures Distinct(Utxos(env, txs))
  {
    AcceptedDistinct(env, txs);
    AllOwnedDistinct(env, BookOf(env, txs).accepted);
    WithoutDistinct(AllOwned(env, BookOf(env, txs).accepted), BookOf(env, txs).settled);
  }

  /** Lists without repetition that hold the same outputs have the same total. */
  lemma {:induction false} TotalOfPermutation(allTx: map<Hash, Tx>, s: seq<Outpoint>, t: seq<Outpoint>)
    requires Distinct(s) && Distinct(t) && forall o :: o in s <==> o in t
    ensures Total(allTx, s) == Total(allTx, t)
  {
    hide Total;
    if s == [] {
      if t != [] {
        HasMember(t);
      }
    } else {
      assert s[0] in s;
      var k :| 0 <= k < |t| && t[k] == s[0];
      var rest := t[..k] + t[k + 1..];
      TotalExcept(allTx, t, k);
      TotalExcept(allTx, s, 0);
      assert s[..0] + s[0 + 1..] == s[1..];
      MembersExcept(t, k);
      MembersExcept(s, 0);
      forall o ensures o in s[1..] <==> o in rest {
        assert o in s[..0] + s[0 + 1..] <==> o in s && o != s[0];
      }
      TotalOfPermutation(allTx, s[1..], rest);
    }
  }

  lemma HasMember<T>(t: seq<T>)
    requires t != []
    ensures exists x :: x in t
  {
    assert t[0] in t;
  }

  lemma TotalExcept(allTx: map<Hash, Tx>, t: seq<Outpoint>, k: nat)
    requires k < |t|
    ensures Total(allTx, t) == ValueOf(allTx, t[k]) + Total(allTx, t[..k] + t[k + 1..])
  {
    hide Total;
    assert t == t[..k] + ([t[k]] + t[k + 1..]);
    TotalConcat(allTx, t[..k], [t[k]] + t[k + 1..]);
    TotalConcat(allTx, [t[k]], t[k + 1..]);
    TotalConcat(allTx, t[..k], t[k + 1..]);
    TotalSingle(allTx, t[k]);
  }

  lemma MembersExcept<T>(t: seq<T>, k: nat)
    requires k < |t| && Distinct(t)
    ensures Distinct(t[..k] + t[k + 1..])
    ensures forall o :: o in t[..k] + t[k + 1..] <==> o in t && o != t[k]
  {
    var rest := t[..k] + t[k + 1..];
    forall o ensures o in rest <==> o in t && o != t[k] {
      if o in rest {
        var i :| 0 <= i < |rest| && rest[i] == o;
        assert o == t[if i < k then i else i + 1];
      }
      if o in t && o != t[k] {
        var i :| 0 <= i < |t| && t[i] == o;
        assert o == rest[if i < k then i else i - 1];
      }
    }
  }

  /** If all transactions are confirmed, neither the set of unspent outputs nor the balance
      depends on the order of the list. */
  lemma OrderIsIrrelevant(env: Env, allTx: map<Hash, Tx>, txs: seq<Tx>, other: seq<Tx>)
    requires AllConfirmed(txs) && multiset(txs) == multiset(other)
    requires DistinctHashes(txs) && DistinctHashes(other)
    ensures forall o :: o in Utxos(env, txs) <==> o in Utxos(env, other)
    ensures Balance(env, allTx, txs) == Balance(env, allTx, other)
  {
    forall o ensures o in Utxos(env, txs) <==> o in Utxos(env, other) {
      SameMembers(env, txs, other, o);
    }
    forall i | 0 <= i < |other| ensures other[i].blockHeight != TX_UNCONFIRMED {
      assert other[i] in multiset(txs);
    }
    UtxosDistinct(env, txs);
    UtxosDistinct(env, other);
    TotalOfPermutation(allTx, Utxos(env, txs), Utxos(env, other));
  }
}

/** Registering transactions and changing their heights, bitcoin/BRWallet.c. */
module WalletLedger {
  import opened Wrappers
  import opened Transactions
  import opened WalletState
  import opened WalletBalance
  import opened BalanceUpdate
  import opened WalletOrder

  // ----- association with the wallet

  predicate OwnsScript(pkhOf: ScriptPKH, owned: set<PKH>, o: TxOutput) {
    pkhOf(o.script).Some? && pkhOf(o.script).value in owned
  }

  predicate SpendsOwned(pkhOf: ScriptPKH, owned: set<PKH>, allTx: map<Hash, Tx>, i: TxInput) {
    && i.txHash in allTx && i.index < |allTx[i.txHash].outputs|
    && OwnsScript(pkhOf, owned, allTx[i.txHash].outputs[i.index])
  }

  /** An output pays to the wallet, or an input spends a known output that did. */
  predicate Concerns(pkhOf: ScriptPKH, owned: set<PKH>, allTx: map<Hash, Tx>, tx: Tx) {
    || (exists j :: 0 <= j < |tx.outputs| && OwnsScript(pkhOf, owned, tx.outputs[j]))
    || (exists j :: 0 <= j < |tx.inputs| && SpendsOwned(pkhOf, owned, allTx, tx.inputs[j]))
  }

  /** `_BRWalletContainsTx`. */
  method ContainsTx(w: Wallet, tx: Tx) returns (r: bool)
    ensures r == Concerns(w.pkhOf, w.allPKH, w.allTx, tx)
  {
    r := false;
    var i := 0;
    while !r && i < |tx.outputs|
      invariant i <= |tx.outputs|
      invariant r ==> Concerns(w.pkhOf, w.allPKH, w.allTx, tx)
      invariant !r ==> forall j :: 0 <= j < i ==> !OwnsScript(w.pkhOf, w.allPKH, tx.outputs[j])
    {
      var pkh := w.pkhOf(tx.outputs[i].script);
      if pkh.Some? && pkh.value in w.allPKH {
        assert OwnsScript(w.pkhOf, w.allPKH, tx.outputs[i]);
        r := true;
      }
      i := i + 1;
    }
    i := 0;
    while !r && i < |tx.inputs|
      invariant i <= |tx.inputs|
      invariant r ==> Concerns(w.pkhOf, w.allPKH, w.allTx, tx)
      invariant !r ==> forall j :: 0 <= j < |tx.outputs| ==> !OwnsScript(w.pkhOf, w.allPKH, tx.outputs[j])
      invariant !r ==> forall j :: 0 <= j < i ==> !SpendsOwned(w.pkhOf, w.allPKH, w.allTx, tx.inputs[j])
    {
      var t, n := Find(w.allTx, tx.inputs[i].txHash), tx.inputs[i].index;
      var pkh := if t.Some? && n < |t.value.outputs| then w.pkhOf(t.value.outputs[n].script) else None;
      if pkh.Some? && pkh.value in w.allPKH {
        assert SpendsOwned(w.pkhOf, w.allPKH, w.allTx, tx.inputs[i]);
        r := true;
      }
      i := i + 1;
    }
  }

  /** What every ledger operation keeps: registered transactions are known, listed once, in order
      of height, and concern the wallet. */
  predicate Ledger(w: Wallet)
    reads w
  {
    && w.Valid() && SortedByHeight(w.allTx, w.transactions)
    && forall h :: h in w.transactions ==> Concerns(w.pkhOf, w.allPKH, w.allTx, w.allTx[h])
  }

  lemma ConcernsGrows(pkhOf: ScriptPKH, owned: set<PKH>, allTx: map<Hash, Tx>, tx: Tx, t: Tx)
    requires tx.txHash !in allTx && Concerns(pkhOf, owned, allTx, t)
    ensures Concerns(pkhOf, owned, allTx[tx.txHash := tx], t)
  {
    if !(exists j :: 0 <= j < |t.outputs| && OwnsScript(pkhOf, owned, t.outputs[j])) {
      var j :| 0 <= j < |t.inputs| && SpendsOwned(pkhOf, owned, allTx, t.inputs[j]);
      assert SpendsOwned(pkhOf, owned, allTx[tx.txHash := tx], t.inputs[j]);
    }
  }

  // ----- registering

  /** `BRWalletRegisterTransaction` up to the generation of new addresses.  A wallet transaction is
      inserted and everything derived recomputed; an unrelated one is remembered only while it is
      unconfirmed; a known or unsigned one changes nothing. */
  method RegisterTransaction(w: Wallet, tx: Tx, now: int, ghost rank: Hash -> nat) returns (r: bool, wasAdded: bool)
    requires Ledger(w) && Ranked(w.allTx, rank) && RankedTx(tx, rank)
    modifies w`allTx, w`transactions, w`balance, w`totalSent, w`totalReceived, w`balanceHist, w`utxos,
             w`invalidTx, w`pendingTx, w`spentOutputs, w`usedPKH
    ensures Ledger(w) && Ranked(w.allTx, rank)
    ensures wasAdded <==> (&& IsSigned(tx) && tx.txHash !in old(w.allTx)
                           && Concerns(w.pkhOf, w.allPKH, old(w.allTx), tx))
    ensures r <==> IsSigned(tx) && (tx.txHash in old(w.allTx) || wasAdded)
    ensures w.allTx == if IsSigned(tx) && tx.txHash !in old(w.allTx) && (wasAdded || tx.blockHeight == TX_UNCONFIRMED)
                       then old(w.allTx)[tx.txHash := tx] else old(w.allTx)
    ensures wasAdded ==> UpToDate(w, now)
    ensures wasAdded ==> exists pos :: IsSlot(w, old(w.transactions), pos, tx, rank)
                           && w.transactions == InsertAt(old(w.transactions), pos, tx.txHash)
    ensures !wasAdded ==> unchanged(w`transactions, w`balance, w`totalSent, w`totalReceived, w`balanceHist, w`utxos,
                                    w`invalidTx, w`pendingTx, w`spentOutputs, w`usedPKH)
  {
    hide Concerns, SortedByHeight, UpToDate, IsSigned, InsertAt, IsSlot, Compare;
    r, wasAdded := true, false;
    if IsSigned(tx) {
      if tx.txHash !in w.allTx {
        var concerns := ContainsTx(w, tx);
        AddingKeepsLedger(w, tx, rank);
        if concerns {
          ghost var list := w.transactions;
          w.allTx := w.allTx[tx.txHash := tx];
          ghost var pos := InsertTx(w, tx, rank);
          InsertedMembers(list, pos, tx.txHash);
          UpdateBalance(w, now);
          wasAdded := true;
          assert IsSlot(w, old(w.transactions), pos, tx, rank) && w.transactions == InsertAt(old(w.transactions), pos, tx.txHash);
        } else {
          if tx.blockHeight == TX_UNCONFIRMED {
            w.allTx := w.allTx[tx.txHash := tx];
          }
          r := false;
        }
      }
    } else {
      r := false;
    }
  }

  lemma InsertedMembers(list: seq<Hash>, pos: nat, h: Hash)
    requires pos <= |list|
    ensures forall x :: x in InsertAt(list, pos, h) ==> x == h || x in list
  {
  }

  lemma AddingKeepsLedger(w: Wallet, tx: Tx, rank: Hash -> nat)
    requires Ledger(w) && Ranked(w.allTx, rank) && RankedTx(tx, rank) && tx.txHash !in w.allTx
    ensures var allTx := w.allTx[tx.txHash := tx];
            && Ranked(allTx, rank) && Indexed(allTx) && Registered(allTx, w.transactions)
            && SortedByHeight(allTx, w.transactions) && tx.txHash !in w.transactions
            && (forall h :: h in w.transactions ==> Concerns(w.pkhOf, w.allPKH, allTx, allTx[h]))
            && (Concerns(w.pkhOf, w.allPKH, w.allTx, tx) ==> Concerns(w.pkhOf, w.allPKH, allTx, tx))
  {
    hide Concerns;
    var allTx := w.allTx[tx.txHash := tx];
    forall h | h in w.transactions ensures Concerns(w.pkhOf, w.allPKH, allTx, allTx[h]) {
      ConcernsGrows(w.pkhOf, w.allPKH, w.allTx, tx, w.allTx[h]);
    }
    if Concerns(w.pkhOf, w.allPKH, w.allTx, tx) {
      ConcernsGrows(w.pkhOf, w.allPKH, w.allTx, tx, tx);
    }
    forall i | 0 <= i < |w.transactions| ensures HeightOf(allTx, w.transactions[i]) == HeightOf(w.allTx, w.transactions[i]) {
      assert w.transactions[i] in w.transactions;
    }
  }

  // ----- heights

  function Members(s: seq<Hash>): set<Hash> { set h | h in s }

  function Restamp(tx: Tx, height: nat, time: nat): Tx {
    tx.(blockHeight := height, timestamp := time)
  }

  /** Setting height and time of the transactions in `touched`: those that concern the wallet are
      changed; unrelated ones are dropped when they are confirmed. */
  predicate Stamped(pkhOf: ScriptPKH, owned: set<PKH>, before: map<Hash, Tx>, after: map<Hash, Tx>,
                    touched: set<Hash>, height: nat, time: nat) {
    && after.Keys <= before.Keys
    && forall h :: h in before ==>
         if h !in touched || (before[h].blockHeight == height && before[h].timestamp == time)
         then h in after && after[h] == before[h]
         else if Concerns(pkhOf, owned, before, before[h]) || height == TX_UNCONFIRMED
         then h in after && after[h] == Restamp(before[h], height, time)
         else h !in after
  }

  /** Dropping unrelated transactions and changing heights affects no association. */
  lemma ConcernsIsStable(pkhOf: ScriptPKH, owned: set<PKH>, before: map<Hash, Tx>, after: map<Hash, Tx>,
                         touched: set<Hash>, height: nat, time: nat, h: Hash)
    requires Stamped(pkhOf, owned, before, after, touched, height, time) && h in after
    ensures Concerns(pkhOf, owned, after, after[h]) <==> Concerns(pkhOf, owned, before, before[h])
  {
    var t, u := before[h], after[h];
    assert u.inputs == t.inputs && u.outputs == t.outputs;
    forall j | 0 <= j < |t.inputs|
      ensures SpendsOwned(pkhOf, owned, after, t.inputs[j]) <==> SpendsOwned(pkhOf, owned, before, t.inputs[j])
    {
      var p, n := t.inputs[j].txHash, t.inputs[j].index;
      if SpendsOwned(pkhOf, owned, before, t.inputs[j]) {
        assert OwnsScript(pkhOf, owned, before[p].outputs[n]);
        assert Concerns(pkhOf, owned, before, before[p]);
      }
    }
  }

  lemma StampedCompose(pkhOf: ScriptPKH, owned: set<PKH>, a: map<Hash, Tx>, b: map<Hash, Tx>, c: map<Hash, Tx>,
                       touched: set<Hash>, h: Hash, height: nat, time: nat)
    requires Stamped(pkhOf, owned, a, b, touched, height, time)
    requires Stamped(pkhOf, owned, b, c, {h}, height, time)
    ensures Stamped(pkhOf, owned, a, c, touched + {h}, height, time)
  {
    hide Concerns;
    if h in b {
      ConcernsIsStable(pkhOf, owned, a, b, touched, height, time, h);
    }
  }

  /** The registered transactions survive a stamping, with their new heights. */
  lemma RegisteredSurvive(w: Wallet, after: map<Hash, Tx>, touched: set<Hash>, height: nat, time: nat)
    requires Ledger(w) && Stamped(w.pkhOf, w.allPKH, w.allTx, after, touched, height, time)
    ensures Indexed(after) && Registered(after, w.transactions)
    ensures forall h :: h in w.transactions ==>
              && Concerns(w.pkhOf, w.allPKH, after, after[h])
              && after[h].blockHeight == if h in touched then height else w.allTx[h].blockHeight
  {
    hide Concerns;
    forall h | h in w.transactions ensures h in after && Concerns(w.pkhOf, w.allPKH, after, after[h]) {
      assert h in after;
      ConcernsIsStable(w.pkhOf, w.allPKH, w.allTx, after, touched, height, time, h);
    }
  }

  /** Changing one transaction in place, and then dropping it if it is unrelated and confirmed. */
  lemma RestampStamps(w: Wallet, h: Hash, height: nat, time: nat)
    requires Ledger(w) && h in w.allTx
    requires w.allTx[h].blockHeight != height || w.allTx[h].timestamp != time
    ensures var tx := Restamp(w.allTx[h], height, time);
            var after := w.allTx[h := tx];
            var concerns := Concerns(w.pkhOf, w.allPKH, w.allTx, w.allTx[h]);
            && (Concerns(w.pkhOf, w.allPKH, after, tx) <==> concerns)
            && (concerns || height == TX_UNCONFIRMED ==>
                  Stamped(w.pkhOf, w.allPKH, w.allTx, after, {h}, height, time))
            && (!concerns ==> h !in w.transactions)
            && (!concerns && height != TX_UNCONFIRMED ==>
                  Stamped(w.pkhOf, w.allPKH, w.allTx, after - {h}, {h}, height, time))
  {
    var tx := Restamp(w.allTx[h], height, time);
    var after := w.allTx[h := tx];
    forall j | 0 <= j < |tx.inputs|
      ensures SpendsOwned(w.pkhOf, w.allPKH, after, tx.inputs[j]) <==> SpendsOwned(w.pkhOf, w.allPKH, w.allTx, tx.inputs[j])
    {
    }
  }

  lemma SameStamps(pkhOf: ScriptPKH, owned: set<PKH>, allTx: map<Hash, Tx>, h: Hash, height: nat, time: nat)
    requires h !in allTx || (allTx[h].blockHeight == height && allTx[h].timestamp == time)
    ensures Stamped(pkhOf, owned, allTx, allTx, {h}, height, time)
  {
    hide Concerns;
  }

  /** Heights elsewhere do not matter. */
  lemma SortedElsewhere(before: map<Hash, Tx>, after: map<Hash, Tx>, list: seq<Hash>, h: Hash)
    requires Registered(before, list) && SortedByHeight(before, list) && h !in list
    requires forall x :: x in before && x != h ==> x in after && after[x] == before[x]
    ensures Registered(after, list) && SortedByHeight(after, list)
  {
    forall i | 0 <= i < |list| ensures HeightOf(after, list[i]) == HeightOf(before, list[i]) {
      assert list[i] in list;
    }
  }

  /** The body of the loop of `BRWalletUpdateTransactions`. */
  method Touch(w: Wallet, h: Hash, height: nat, time: nat, ghost rank: Hash -> nat) returns (updated: bool, stale: bool)
    requires Ledger(w) && Ranked(w.allTx, rank)
    modifies w`allTx, w`transactions
    ensures Ledger(w) && Ranked(w.allTx, rank)
    ensures Stamped(w.pkhOf, w.allPKH, old(w.allTx), w.allTx, {h}, height, time)
    ensures multiset(w.transactions) == multiset(old(w.transactions))
    ensures updated <==> (&& h in old(w.allTx)
                          && (old(w.allTx)[h].blockHeight != height || old(w.allTx)[h].timestamp != time)
                          && Concerns(w.pkhOf, w.allPKH, old(w.allTx), old(w.allTx)[h]))
    ensures stale <==> updated && (h in w.pendingTx || h in w.invalidTx)
  {
    hide Concerns, SortedByHeight, RemoveAt, InsertAt, IsMoved, Stamped, Distinct;
    updated, stale := false, false;
    if h !in w.allTx || (w.allTx[h].blockHeight == height && w.allTx[h].timestamp == time) {
      SameStamps(w.pkhOf, w.allPKH, w.allTx, h, height, time);
      return;
    }
    ghost var before, list := w.allTx, w.transactions;
    var tx := Restamp(w.allTx[h], height, time);
    RestampStamps(w, h, height, time);
    if Concerns(w.pkhOf, w.allPKH, before, before[h]) {
      RegisteredSurvive(w, w.allTx[h := tx], {h}, height, time);
    } else {
      SortedElsewhere(before, w.allTx[h := tx], list, h);
      SortedElsewhere(before, w.allTx[h := tx] - {h}, list, h);
      if height == TX_UNCONFIRMED {
        RegisteredSurvive(w, w.allTx[h := tx], {h}, height, time);
      } else {
        RegisteredSurvive(w, w.allTx[h := tx] - {h}, {h}, height, time);
      }
    }
    w.allTx := w.allTx[h := tx];
    var contained := ContainsTx(w, tx);
    if contained {
      Reposition(w, tx, before, rank);
      updated := true;
      stale := h in w.pendingTx || h in w.invalidTx;
    } else if height != TX_UNCONFIRMED {
      w.allTx := w.allTx - {h};
    }
  }

  /** The list is `list` with `tx` taken out and put back where it belongs. */
  ghost predicate IsMoved(w: Wallet, list: seq<Hash>, tx: Tx, rank: Hash -> nat)
    requires Ranked(w.allTx, rank) && RankedTx(tx, rank)
    reads w`allTx, w`transactions, w`internalChain, w`externalChain
  {
    if tx.txHash in list then exists p, q :: IsPlaced(w, list, p, q, tx, rank) else w.transactions == list
  }

  ghost predicate IsPlaced(w: Wallet, list: seq<Hash>, p: nat, q: nat, tx: Tx, rank: Hash -> nat)
    requires Ranked(w.allTx, rank) && RankedTx(tx, rank)
    reads w`allTx, w`transactions, w`internalChain, w`externalChain
  {
    && p < |list| && list[p] == tx.txHash
    && q < |list| && IsSlot(w, RemoveAt(list, p), q, tx, rank)
    && w.transactions == InsertAt(RemoveAt(list, p), q, tx.txHash)
  }

  /** Removes and re-inserts `tx`, whose height has just changed, to keep the list sorted. */
  method Reposition(w: Wallet, tx: Tx, ghost before: map<Hash, Tx>, ghost rank: Hash -> nat)
    requires w.Valid() && Ranked(w.allTx, rank)
    requires tx.txHash in w.allTx && w.allTx[tx.txHash] == tx
    requires Registered(before, w.transactions) && SortedByHeight(before, w.transactions)
    requires forall x :: x in before && x != tx.txHash ==> x in w.allTx && w.allTx[x] == before[x]
    modifies w`transactions
    ensures w.Valid() && SortedByHeight(w.allTx, w.transactions)
    ensures multiset(w.transactions) == multiset(old(w.transactions))
    ensures forall x :: x in w.transactions <==> x in old(w.transactions)
    ensures IsMoved(w, old(w.transactions), tx, rank)
  {
    hide SortedByHeight, RemoveAt, InsertAt, Ranked, IsSlot;
    ghost var list := w.transactions;
    var pos := FindFromEnd(w.transactions, tx.txHash);
    if pos.Some? {
      RemoveKeepsOrder(before, list, pos.value);
      SortedElsewhere(before, w.allTx, RemoveAt(list, pos.value), tx.txHash);
      w.transactions := RemoveAt(w.transactions, pos.value);
      ghost var at := InsertTx(w, tx, rank);
      Reinserted(list, pos.value, at);
      RankedMember(w.allTx, tx.txHash, rank);
      assert IsPlaced(w, list, pos.value, at, tx, rank);
    } else {
      SortedElsewhere(before, w.allTx, list, tx.txHash);
    }
  }

  lemma RankedMember(allTx: map<Hash, Tx>, h: Hash, rank: Hash -> nat)
    requires Ranked(allTx, rank) && h in allTx
    ensures RankedTx(allTx[h], rank)
  {
  }

  lemma Reinserted(list: seq<Hash>, pos: nat, at: nat)
    requires pos < |list| && at <= |RemoveAt(list, pos)|
    ensures |RemoveAt(list, pos)| < |list|
    ensures multiset(InsertAt(RemoveAt(list, pos), at, list[pos])) == multiset(list)
    ensures forall x :: x in InsertAt(RemoveAt(list, pos), at, list[pos]) <==> x in list
  {
    var r, h := RemoveAt(list, pos), list[pos];
    assert list == list[..pos] + ([h] + list[pos + 1..]);
    assert multiset(list) == multiset(r) + multiset{h};
    assert r == r[..at] + r[at..];
    assert multiset(InsertAt(r, at, h)) == multiset(r) + multiset{h};
    forall x ensures x in InsertAt(r, at, h) <==> x in list {
      assert x in multiset(InsertAt(r, at, h)) <==> x in multiset(list);
    }
  }

  /** `BRWalletUpdateTransactions`: sets height and time of the given transactions, keeping the
      list sorted.  `updated` lists the wallet transactions that changed; the balance is recomputed
      only if one of them was pending or invalid. */
  method UpdateTransactions(w: Wallet, txHashes: seq<Hash>, height: nat, time: nat, now: int, ghost rank: Hash -> nat)
      returns (updated: seq<Hash>, needsUpdate: bool)
    requires Ledger(w) && Ranked(w.allTx, rank)
    modifies w`blockHeight, w`allTx, w`transactions, w`balance, w`totalSent, w`totalReceived, w`balanceHist, w`utxos,
             w`invalidTx, w`pendingTx, w`spentOutputs, w`usedPKH
    ensures Ledger(w) && Ranked(w.allTx, rank)
    ensures Stamped(w.pkhOf, w.allPKH, old(w.allTx), w.allTx, Members(txHashes), height, time)
    ensures multiset(w.transactions) == multiset(old(w.transactions))
    ensures w.blockHeight == if height > old(w.blockHeight) then height else old(w.blockHeight)
    ensures forall h :: h in updated <==> (&& h in txHashes && h in old(w.allTx)
                          && (old(w.allTx)[h].blockHeight != height || old(w.allTx)[h].timestamp != time)
                          && Concerns(w.pkhOf, w.allPKH, old(w.allTx), old(w.allTx)[h]))
    ensures needsUpdate <==> exists h :: h in updated && (h in old(w.pendingTx) || h in old(w.invalidTx))
    ensures needsUpdate ==> UpToDate(w, now)
    ensures !needsUpdate ==> unchanged(w`balance, w`totalSent, w`totalReceived, w`balanceHist, w`utxos,
                                       w`invalidTx, w`pendingTx, w`spentOutputs, w`usedPKH)
  {
    hide Concerns, SortedByHeight, UpToDate, Stamped, ShouldUpdate, Members;
    if height > w.blockHeight {
      w.blockHeight := height;
    }
    updated, needsUpdate := [], false;
    ghost var before := w.allTx;
    NothingTouched(w.pkhOf, w.allPKH, before, height, time);
    assert txHashes[..0] == [];
    for i := 0 to |txHashes|
      invariant Ledger(w) && Ranked(w.allTx, rank)
      invariant Stamped(w.pkhOf, w.allPKH, before, w.allTx, Members(txHashes[..i]), height, time)
      invariant multiset(w.transactions) == multiset(old(w.transactions))
      invariant forall h :: h in updated <==> ShouldUpdate(w.pkhOf, w.allPKH, before, h, txHashes[..i], height, time)
      invariant needsUpdate <==> exists h :: h in updated && (h in w.pendingTx || h in w.invalidTx)
      modifies w`allTx, w`transactions
    {
      ghost var mid := w.allTx;
      var changed, stale := Touch(w, txHashes[i], height, time, rank);
      assert txHashes[..i + 1] == txHashes[..i] + [txHashes[i]];
      StampedCompose(w.pkhOf, w.allPKH, before, mid, w.allTx, Members(txHashes[..i]), txHashes[i], height, time);
      TouchedTwice(w.pkhOf, w.allPKH, before, mid, txHashes[..i], txHashes[i], height, time);
      ShouldUpdateOne(w.pkhOf, w.allPKH, mid, txHashes[i], height, time);
      if changed {
        updated := updated + [txHashes[i]];
        if stale {
          needsUpdate := true;
        }
      }
    }
    assert txHashes[..|txHashes|] == txHashes;
    ShouldUpdateMeans(w.pkhOf, w.allPKH, before, txHashes, height, time);
    if needsUpdate {
      UpdateBalance(w, now);
    }
  }

  predicate ShouldUpdate(pkhOf: ScriptPKH, owned: set<PKH>, before: map<Hash, Tx>, h: Hash, txHashes: seq<Hash>,
                         height: nat, time: nat) {
    && h in txHashes && h in before
    && (before[h].blockHeight != height || before[h].timestamp != time)
    && Concerns(pkhOf, owned, before, before[h])
  }

  lemma NothingTouched(pkhOf: ScriptPKH, owned: set<PKH>, before: map<Hash, Tx>, height: nat, time: nat)
    ensures Stamped(pkhOf, owned, before, before, Members([]), height, time)
    ensures forall h :: !ShouldUpdate(pkhOf, owned, before, h, [], height, time)
  {
  }

  /** One hash touched. */
  lemma ShouldUpdateOne(pkhOf: ScriptPKH, owned: set<PKH>, before: map<Hash, Tx>, h: Hash, height: nat, time: nat)
    ensures ShouldUpdate(pkhOf, owned, before, h, [h], height, time)
       <==> (&& h in before && (before[h].blockHeight != height || before[h].timestamp != time)
             && Concerns(pkhOf, owned, before, before[h]))
  {
  }

  lemma ShouldUpdateMeans(pkhOf: ScriptPKH, owned: set<PKH>, before: map<Hash, Tx>, txHashes: seq<Hash>, height: nat, time: nat)
    ensures forall h :: ShouldUpdate(pkhOf, owned, before, h, txHashes, height, time)
                   <==> (&& h in txHashes && h in before
                         && (before[h].blockHeight != height || before[h].timestamp != time)
                         && Concerns(pkhOf, owned, before, before[h]))
  {
  }

  /** A hash listed twice is changed once. */
  lemma TouchedTwice(pkhOf: ScriptPKH, owned: set<PKH>, before: map<Hash, Tx>, mid: map<Hash, Tx>,
                     prefix: seq<Hash>, x: Hash, height: nat, time: nat)
    requires Stamped(pkhOf, owned, before, mid, Members(prefix), height, time)
    ensures Members(prefix + [x]) == Members(prefix) + {x}
    ensures forall h :: ShouldUpdate(pkhOf, owned, before, h, prefix + [x], height, time)
                   <==> (ShouldUpdate(pkhOf, owned, before, h, prefix, height, time)
                         || (h == x && ShouldUpdate(pkhOf, owned, mid, h, [x], height, time)))
  {
    hide Concerns;
    if x in mid {
      ConcernsIsStable(pkhOf, owned, before, mid, Members(prefix), height, time, x);
    }
  }

  // ----- reorganisations

  /** The transactions above `height`, marked unconfirmed. */
  function Unconfirmed(allTx: map<Hash, Tx>, list: seq<Hash>, height: nat): map<Hash, Tx> {
    map h | h in allTx :: if h in list && allTx[h].blockHeight > height
                          then allTx[h].(blockHeight := TX_UNCONFIRMED) else allTx[h]
  }

  function Marked(allTx: map<Hash, Tx>, hashes: seq<Hash>): map<Hash, Tx> {
    map h | h in allTx :: if h in hashes then allTx[h].(blockHeight := TX_UNCONFIRMED) else allTx[h]
  }

  lemma MarkedNone(allTx: map<Hash, Tx>)
    ensures Marked(allTx, []) == allTx
  {
  }

  lemma MarkedStep(allTx: map<Hash, Tx>, hashes: seq<Hash>, h: Hash)
    requires h in allTx
    ensures h in Marked(allTx, hashes)
    ensures Marked(allTx, hashes)[h := Marked(allTx, hashes)[h].(blockHeight := TX_UNCONFIRMED)] == Marked(allTx, hashes + [h])
  {
  }

  lemma MarkedIsUnconfirmed(allTx: map<Hash, Tx>, list: seq<Hash>, upper: seq<Hash>, height: nat)
    requires forall h :: h in list ==> h in allTx
    requires forall h :: h in upper <==> h in list && allTx[h].blockHeight > height
    ensures Marked(allTx, upper) == Unconfirmed(allTx, list, height)
  {
  }

  lemma UnconfirmedRanked(allTx: map<Hash, Tx>, list: seq<Hash>, height: nat, rank: Hash -> nat)
    requires Ranked(allTx, rank)
    ensures Ranked(Unconfirmed(allTx, list, height), rank)
  {
  }

  /** The position after the last transaction not above `height`, searched from the end. */
  method SplitAt(w: Wallet, height: nat) returns (i: nat)
    requires w.Valid() && SortedByHeight(w.allTx, w.transactions)
    ensures i <= |w.transactions|
    ensures forall h :: h in w.transactions[i..] <==> h in w.transactions && w.allTx[h].blockHeight > height
  {
    hide SortedByHeight;
    i := |w.transactions|;
    while i > 0 && w.allTx[w.transactions[i - 1]].blockHeight > height
      invariant 0 <= i <= |w.transactions|
      invariant forall k :: i <= k < |w.transactions| ==> w.allTx[w.transactions[k]].blockHeight > height
    {
      i := i - 1;
    }
    LowerPart(w.allTx, w.transactions, i, height);
  }

  /** Marks the transactions from position `i` on as unconfirmed. */
  method MarkFrom(w: Wallet, i: nat) returns (hashes: seq<Hash>)
    requires w.Valid() && i <= |w.transactions|
    modifies w`allTx
    ensures w.allTx == Marked(old(w.allTx), hashes) && hashes == w.transactions[i..]
  {
    hide Marked;
    ghost var before := w.allTx;
    hashes := [];
    MarkedNone(before);
    for j := i to |w.transactions|
      invariant w.allTx == Marked(before, hashes)
      invariant hashes == w.transactions[i..j]
    {
      MarkedStep(before, hashes, w.transactions[j]);
      w.allTx := w.allTx[w.transactions[j] := w.allTx[w.transactions[j]].(blockHeight := TX_UNCONFIRMED)];
      hashes := hashes + [w.transactions[j]];
    }
  }

  /** `BRWalletSetTxUnconfirmedAfter`: every registered transaction above `height` becomes
      unconfirmed, nothing else changes; the list stays sorted because unconfirmed is the largest
      height there is.  (If it were not, un-confirming could lower a height.)  `hashes` lists what was
      changed. */
  method SetTxUnconfirmedAfter(w: Wallet, height: nat, now: int, ghost rank: Hash -> nat) returns (hashes: seq<Hash>)
    requires Ledger(w) && Ranked(w.allTx, rank)
    requires height <= TX_UNCONFIRMED || forall h :: h in w.transactions ==> w.allTx[h].blockHeight <= height
    modifies w`blockHeight, w`allTx, w`balance, w`totalSent, w`totalReceived, w`balanceHist, w`utxos,
             w`invalidTx, w`pendingTx, w`spentOutputs, w`usedPKH
    ensures Ledger(w) && Ranked(w.allTx, rank)
    ensures w.blockHeight == height
    ensures w.allTx == Unconfirmed(old(w.allTx), w.transactions, height)
    ensures forall h :: h in hashes <==> h in w.transactions && old(w.allTx)[h].blockHeight > height
    ensures hashes != [] ==> UpToDate(w, now)
    ensures hashes == [] ==> unchanged(w`balance, w`totalSent, w`totalReceived, w`balanceHist, w`utxos,
                                       w`invalidTx, w`pendingTx, w`spentOutputs, w`usedPKH)
  {
    hide Concerns, UpToDate, Unconfirmed, Marked, SortedByHeight, Ranked;
    w.blockHeight := height;
    ghost var before := w.allTx;
    var i := SplitAt(w, height);
    hashes := MarkFrom(w, i);
    MarkedIsUnconfirmed(before, w.transactions, hashes, height);
    UnconfirmedKeepsLedger(w, before, height);
    UnconfirmedRanked(before, w.transactions, height, rank);
    if hashes != [] {
      UpdateBalance(w, now);
    }
  }

  lemma LowerPart(allTx: map<Hash, Tx>, list: seq<Hash>, i: nat, height: nat)
    requires Registered(allTx, list) && SortedByHeight(allTx, list)
    requires i <= |list| && (i > 0 ==> allTx[list[i - 1]].blockHeight <= height)
    requires forall k :: i <= k < |list| ==> allTx[list[k]].blockHeight > height
    ensures forall h :: h in list[i..] <==> h in list && allTx[h].blockHeight > height
  {
    forall k | 0 <= k < i ensures allTx[list[k]].blockHeight <= height {
      if k < i - 1 {
        assert HeightOf(allTx, list[k]) <= HeightOf(allTx, list[i - 1]);
      }
    }
  }

  lemma UnconfirmedKeepsLedger(w: Wallet, before: map<Hash, Tx>, height: nat)
    requires Indexed(before)
    requires height <= TX_UNCONFIRMED || forall h :: h in w.transactions ==> h in before && before[h].blockHeight <= height
    requires Registered(before, w.transactions) && SortedByHeight(before, w.transactions)
    requires forall h :: h in w.transactions ==> Concerns(w.pkhOf, w.allPKH, before, before[h])
    requires w.allTx == Unconfirmed(before, w.transactions, height)
    ensures Ledger(w)
  {
    forall h | h in w.transactions ensures Concerns(w.pkhOf, w.allPKH, w.allTx, w.allTx[h]) {
      SameShapeConcerns(w.pkhOf, w.allPKH, before, w.allTx, h);
    }
    hide Concerns;
    var list := w.transactions;
    forall i, j | 0 <= i < j < |list| ensures HeightOf(w.allTx, list[i]) <= HeightOf(w.allTx, list[j]) {
      assert HeightOf(before, list[i]) <= HeightOf(before, list[j]);
      assert list[i] in list && list[j] in list;
    }
  }

  lemma SameShapeConcerns(pkhOf: ScriptPKH, owned: set<PKH>, before: map<Hash, Tx>, after: map<Hash, Tx>, h: Hash)
    requires before.Keys == after.Keys && h in before
    requires forall x :: x in before ==> after[x].inputs == before[x].inputs && after[x].outputs == before[x].outputs
    requires Concerns(pkhOf, owned, before, before[h])
    ensures Concerns(pkhOf, owned, after, after[h])
  {
    forall j | 0 <= j < |before[h].inputs|
      ensures SpendsOwned(pkhOf, owned, after, after[h].inputs[j]) <==> SpendsOwned(pkhOf, owned, before, before[h].inputs[j])
    {
    }
  }
}

/** The gap-limit address chains of bitcoin/BRWallet.c. */
module AddressChain {
  import opened Wrappers
  import opened Transactions
  import opened WalletState
  import opened WalletBalance
  import opened BalanceUpdate
  import opened WalletOrder
  import opened WalletLedger

  const GAP_LIMIT_EXTERNAL: nat := 10
  const GAP_LIMIT_INTERNAL: nat := 5

  /** Key derivation, left abstract: the hash of the n-th public key of the internal or external
      chain, if it is a valid key. */
  type Derive = (bool, nat) -> Option<PKH>

  /** Different positions of a chain yield different keys. */
  ghost predicate Injective(derive: Derive, internal: bool) {
    forall m: nat, n: nat :: m != n && derive(internal, m).Some? ==> derive(internal, m) != derive(internal, n)
  }

  /** The chain holds the first derived keys, in order. */
  predicate IsChain(derive: Derive, internal: bool, chain: seq<PKH>) {
    forall k :: 0 <= k < |chain| ==> derive(internal, k) == Some(chain[k])
  }

  function Elements(chain: seq<PKH>): set<PKH> { set x | x in chain }

  /** The number of unused keys at the end. */
  function Gap(chain: seq<PKH>, used: set<PKH>): nat {
    if chain == [] || chain[|chain| - 1] in used then 0 else 1 + Gap(chain[..|chain| - 1], used)
  }

  lemma {:induction false} GapMeans(chain: seq<PKH>, used: set<PKH>)
    ensures Gap(chain, used) <= |chain|
    ensures forall k :: |chain| - Gap(chain, used) <= k < |chain| ==> chain[k] !in used
    ensures Gap(chain, used) < |chain| ==> chain[|chain| - 1 - Gap(chain, used)] in used
  {
    if Gap(chain, used) > 0 {
      GapMeans(chain[..|chain| - 1], used);
    }
  }

  lemma GapAppend(chain: seq<PKH>, x: PKH, used: set<PKH>)
    ensures Gap(chain + [x], used) == if x in used then 0 else Gap(chain, used) + 1
  {
    assert (chain + [x])[..|chain|] == chain;
  }

  lemma {:induction false} GapFromMeaning(chain: seq<PKH>, used: set<PKH>, i: nat)
    requires i <= |chain| && (forall k :: i <= k < |chain| ==> chain[k] !in used)
    requires i > 0 ==> chain[i - 1] in used
    ensures Gap(chain, used) == |chain| - i
  {
    if i < |chain| {
      GapFromMeaning(chain[..|chain| - 1], used, i);
    }
  }

  /** The first key after the last used one, searched from the end. */
  method AfterLastUsed(chain: seq<PKH>, used: set<PKH>) returns (i: nat)
    ensures i <= |chain| && Gap(chain, used) == |chain| - i
  {
    i := |chain|;
    while i > 0 && chain[i - 1] !in used
      invariant 0 <= i <= |chain|
      invariant forall k :: i <= k < |chain| ==> chain[k] !in used
    {
      i := i - 1;
    }
    GapFromMeaning(chain, used, i);
  }

  /** Keys are added only while the gap is too small. */
  ghost predicate GrownFrom(chain0: seq<PKH>, chain: seq<PKH>, used: set<PKH>, gapLimit: nat) {
    && chain0 <= chain
    && forall m :: |chain0| <= m < |chain| ==> Gap(chain[..m], used) < gapLimit
  }

  lemma GrowOne(chain0: seq<PKH>, chain: seq<PKH>, x: PKH, used: set<PKH>, gapLimit: nat)
    requires GrownFrom(chain0, chain, used, gapLimit) && Gap(chain, used) < gapLimit
    ensures GrownFrom(chain0, chain + [x], used, gapLimit)
  {
    forall m | |chain0| <= m < |chain| + 1 ensures Gap((chain + [x])[..m], used) < gapLimit {
      assert (chain + [x])[..m] == if m <= |chain| then chain[..m] else chain + [x];
      assert chain[..|chain|] == chain;
    }
  }

  /** A new used key takes one off the used keys not in the chain. */
  lemma FewerLeft(chain: seq<PKH>, x: PKH, used: set<PKH>)
    requires x !in chain
    ensures used - Elements(chain + [x]) <= used - Elements(chain)
    ensures x in used ==> |used - Elements(chain + [x])| < |used - Elements(chain)|
    ensures |used - Elements(chain + [x])| <= |used - Elements(chain)|
  {
    var before, after := used - Elements(chain), used - Elements(chain + [x]);
    assert before == after + (before - after);
    if x in used {
      assert x in before - after;
    }
  }

  lemma NewKeyIsNew(derive: Derive, internal: bool, chain: seq<PKH>, x: PKH)
    requires IsChain(derive, internal, chain) && Injective(derive, internal) && derive(internal, |chain|) == Some(x)
    ensures x !in chain && IsChain(derive, internal, chain + [x])
  {
    forall k | 0 <= k < |chain| ensures chain[k] != x {
      assert derive(internal, k) != derive(internal, |chain|);
    }
  }

  /** The generation loop.  It ends because each turn either narrows the distance to the gap limit
      or uses up one of the used keys not yet in the chain. */
  method Extend(derive: Derive, internal: bool, chain0: seq<PKH>, used: set<PKH>, gapLimit: nat) returns (chain: seq<PKH>, i: nat)
    requires gapLimit > 0 && IsChain(derive, internal, chain0) && Injective(derive, internal)
    ensures IsChain(derive, internal, chain) && GrownFrom(chain0, chain, used, gapLimit)
    ensures i <= |chain| && Gap(chain, used) == |chain| - i
    ensures Gap(chain, used) >= gapLimit || derive(internal, |chain|).None?
  {
    hide Gap, Injective, IsChain, GrownFrom;
    chain := chain0;
    i := AfterLastUsed(chain, used);
    NoGrowth(chain0, used, gapLimit);
    while i + gapLimit > |chain|
      invariant i <= |chain| && Gap(chain, used) == |chain| - i
      invariant IsChain(derive, internal, chain) && GrownFrom(chain0, chain, used, gapLimit)
      decreases |used - Elements(chain)|, i + gapLimit - |chain|
    {
      var key := derive(internal, |chain|);
      if key.None? {
        break;
      }
      NewKeyIsNew(derive, internal, chain, key.value);
      GapAppend(chain, key.value, used);
      FewerLeft(chain, key.value, used);
      GrowOne(chain0, chain, key.value, used, gapLimit);
      chain := chain + [key.value];
      if chain[|chain| - 1] in used {
        i := |chain|;
      }
    }
  }

  lemma NoGrowth(chain: seq<PKH>, used: set<PKH>, gapLimit: nat)
    ensures GrownFrom(chain, chain, used, gapLimit)
  {
  }

  /** The chains are derived in order, and `allPKH` holds both. */
  ghost predicate ChainsValid(w: Wallet, derive: Derive)
    reads w`internalChain, w`externalChain, w`allPKH
  {
    && IsChain(derive, true, w.internalChain) && IsChain(derive, false, w.externalChain)
    && w.allPKH == Elements(w.internalChain) + Elements(w.externalChain)
  }

  function ChainOf(w: Wallet, internal: bool): seq<PKH>
    reads w`internalChain, w`externalChain
  {
    if internal then w.internalChain else w.externalChain
  }

  /** `BRWalletUnusedAddrs`: extends one chain, only as far as needed, until `gapLimit` unused keys
      follow the last used one, and returns those.  `moved` says whether growing moved the array:
      if so `allPKH` is rebuilt, if not the new keys are added to it. */
  method UnusedAddrs(w: Wallet, derive: Derive, gapLimit: nat, internal: bool, moved: bool) returns (addrs: seq<PKH>)
    requires gapLimit > 0 && ChainsValid(w, derive) && Injective(derive, internal)
    modifies w`internalChain, w`externalChain, w`allPKH
    ensures ChainsValid(w, derive) && w.allPKH >= old(w.allPKH)
    ensures ChainOf(w, !internal) == old(ChainOf(w, !internal))
    ensures GrownFrom(old(ChainOf(w, internal)), ChainOf(w, internal), w.usedPKH, gapLimit)
    ensures var chain := ChainOf(w, internal);
            var i := |chain| - Gap(chain, w.usedPKH);
            if Gap(chain, w.usedPKH) >= gapLimit
            then 0 <= i && i + gapLimit <= |chain| && addrs == chain[i..i + gapLimit]
            else addrs == [] && derive(internal, |chain|).None?
  {
    hide Gap, Injective, IsChain, GrownFrom;
    var chain0 := if internal then w.internalChain else w.externalChain;
    var chain, i := Extend(derive, internal, chain0, w.usedPKH, gapLimit);
    addrs := [];
    if i + gapLimit <= |chain| {
      addrs := Window(chain, i, gapLimit);
    }
    Grown(chain0, chain, w.usedPKH, gapLimit);
    if internal {
      w.internalChain := chain;
    } else {
      w.externalChain := chain;
    }
    if !moved {
      AddAll(w, chain, |chain0|);
    } else {
      w.allPKH := {};
      AddAll(w, w.internalChain, 0);
      AddAll(w, w.externalChain, 0);
    }
  }

  /** The keys are copied out one by one. */
  method Window(chain: seq<PKH>, i: nat, n: nat) returns (addrs: seq<PKH>)
    requires i + n <= |chain|
    ensures addrs == chain[i..i + n]
  {
    addrs := [];
    for j := 0 to n
      invariant addrs == chain[i..i + j]
    {
      addrs := addrs + [chain[i + j]];
    }
  }

  lemma Grown(chain0: seq<PKH>, chain: seq<PKH>, used: set<PKH>, gapLimit: nat)
    requires GrownFrom(chain0, chain, used, gapLimit)
    ensures |chain0| <= |chain| && chain == chain0 + chain[|chain0|..]
    ensures Elements(chain) == Elements(chain0) + Elements(chain[|chain0|..])
  {
    assert chain == chain0 + chain[|chain0|..];
    forall x | x in chain ensures x in chain0 || x in chain[|chain0|..] {
      assert x in chain0 + chain[|chain0|..];
    }
    forall x | x in chain0 ensures x in chain {
      assert x in chain0 + chain[|chain0|..];
    }
  }

  method AddAll(w: Wallet, chain: seq<PKH>, start: nat)
    requires start <= |chain|
    modifies w`allPKH
    ensures w.allPKH == old(w.allPKH) + Elements(chain[start..])
  {
    assert chain[start..start] == [];
    for i := start to |chain|
      invariant w.allPKH == old(w.allPKH) + Elements(chain[start..i])
    {
      assert chain[start..i + 1] == chain[start..i] + [chain[i]];
      w.allPKH := w.allPKH + {chain[i]};
    }
    assert chain[start..|chain|] == chain[start..];
  }

  /** The keys returned are the `gapLimit` ones right after the last used one, and all unused. */
  lemma ReturnedAreUnused(chain: seq<PKH>, used: set<PKH>, gapLimit: nat)
    requires Gap(chain, used) >= gapLimit > 0
    ensures var i := |chain| - Gap(chain, used);
            && 0 <= i && i + gapLimit <= |chain|
            && (forall x :: x in chain[i..i + gapLimit] ==> x !in used)
            && (i > 0 ==> chain[i - 1] in used)
            && (forall k :: i <= k < |chain| ==> chain[k] !in used)
  {
    GapMeans(chain, used);
  }

  /** A chain that grew has exactly the gap asked for. */
  lemma GrowthIsLeast(chain0: seq<PKH>, chain: seq<PKH>, used: set<PKH>, gapLimit: nat)
    requires GrownFrom(chain0, chain, used, gapLimit) && Gap(chain, used) >= gapLimit > 0
    ensures chain == chain0 || Gap(chain, used) == gapLimit
  {
    if |chain| > |chain0| {
      var n := |chain| - 1;
      assert Gap(chain[..n], used) < gapLimit;
      assert chain == chain[..n] + [chain[n]];
      GapAppend(chain[..n], chain[n], used);
    }
  }

  /** More keys never take a transaction out of the wallet. */
  lemma MoreKeysConcern(pkhOf: ScriptPKH, owned: set<PKH>, more: set<PKH>, allTx: map<Hash, Tx>, tx: Tx)
    requires owned <= more && Concerns(pkhOf, owned, allTx, tx)
    ensures Concerns(pkhOf, more, allTx, tx)
  {
    if j :| 0 <= j < |tx.outputs| && OwnsScript(pkhOf, owned, tx.outputs[j]) {
      assert OwnsScript(pkhOf, more, tx.outputs[j]);
    } else {
      var j :| 0 <= j < |tx.inputs| && SpendsOwned(pkhOf, owned, allTx, tx.inputs[j]);
      assert SpendsOwned(pkhOf, more, allTx, tx.inputs[j]);
    }
  }

  lemma MoreKeysKeepLedger(w: Wallet, owned: set<PKH>)
    requires w.Valid() && SortedByHeight(w.allTx, w.transactions) && owned <= w.allPKH
    requires forall h :: h in w.transactions ==> Concerns(w.pkhOf, owned, w.allTx, w.allTx[h])
    ensures Ledger(w)
  {
    hide Concerns;
    forall h | h in w.transactions ensures Concerns(w.pkhOf, w.allPKH, w.allTx, w.allTx[h]) {
      MoreKeysConcern(w.pkhOf, owned, w.allPKH, w.allTx, w.allTx[h]);
    }
  }

  /** All of `BRWalletRegisterTransaction`: a transaction that is added may use keys, and is followed
      by restoring the gap behind the used ones in both chains. */
  method RegisterAndExtend(w: Wallet, tx: Tx, derive: Derive, movedExternal: bool, movedInternal: bool, now: int, ghost rank: Hash -> nat)
      returns (r: bool)
    requires Ledger(w) && Ranked(w.allTx, rank) && RankedTx(tx, rank)
    requires ChainsValid(w, derive) && Injective(derive, true) && Injective(derive, false)
    modifies w
    ensures Ledger(w) && Ranked(w.allTx, rank) && ChainsValid(w, derive)
    ensures w.allPKH >= old(w.allPKH)
    ensures var wasAdded := IsSigned(tx) && tx.txHash !in old(w.allTx) && Concerns(w.pkhOf, old(w.allPKH), old(w.allTx), tx);
            && (wasAdded ==> tx.txHash in w.transactions)
            && (wasAdded ==> Gap(w.externalChain, w.usedPKH) >= GAP_LIMIT_EXTERNAL || derive(false, |w.externalChain|).None?)
            && (wasAdded ==> Gap(w.internalChain, w.usedPKH) >= GAP_LIMIT_INTERNAL || derive(true, |w.internalChain|).None?)
            && (!wasAdded ==> w.transactions == old(w.transactions) && w.allPKH == old(w.allPKH))
            && (r <==> IsSigned(tx) && (tx.txHash in old(w.allTx) || wasAdded))
            && w.allTx == if IsSigned(tx) && tx.txHash !in old(w.allTx) && (wasAdded || tx.blockHeight == TX_UNCONFIRMED)
                          then old(w.allTx)[tx.txHash := tx] else old(w.allTx)
  {
    hide Concerns, SortedByHeight, Gap, GrownFrom, UpToDate, IsSigned, InsertAt, IsChain, Injective, Ranked, RankedTx;
    var wasAdded;
    r, wasAdded := RegisterTransaction(w, tx, now, rank);
    if wasAdded {
      Inserted(old(w.transactions), w.transactions, tx.txHash);
      ghost var owned := w.allPKH;
      var addrs := UnusedAddrs(w, derive, GAP_LIMIT_EXTERNAL, false, movedExternal);
      MoreKeysKeepLedger(w, owned);
      owned := w.allPKH;
      addrs := UnusedAddrs(w, derive, GAP_LIMIT_INTERNAL, true, movedInternal);
      MoreKeysKeepLedger(w, owned);
    }
  }

  lemma Inserted(list0: seq<Hash>, list: seq<Hash>, h: Hash)
    requires exists pos :: 0 <= pos <= |list0| && list == InsertAt(list0, pos, h)
    ensures h in list
  {
    var pos :| 0 <= pos <= |list0| && list == InsertAt(list0, pos, h);
    assert list[pos] == h;
  }
}

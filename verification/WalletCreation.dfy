/** `BRWalletNew` of bitcoin/BRWallet.c: a wallet from the transactions that were saved. */
module WalletCreation {
  import opened Wrappers
  import opened Bytes
  import opened Transactions
  import opened WalletState
  import opened WalletBalance
  import opened BalanceUpdate
  import opened WalletOrder
  import opened WalletLedger
  import opened AddressChain

  const GAP_LIMIT_EXTERNAL_EXTENDED: nat := GAP_LIMIT_EXTERNAL + 100
  const GAP_LIMIT_INTERNAL_EXTENDED: nat := GAP_LIMIT_INTERNAL + 100
  const DEFAULT_FEE_PER_KB: nat := TX_FEE_PER_KB * 10

  /** A wallet before anything is loaded. */
  predicate IsBlank(w: Wallet)
    reads w
  {
    && w.utxos == [] && w.transactions == [] && w.balanceHist == [] && w.internalChain == [] && w.externalChain == []
    && w.allTx == map[] && w.invalidTx == {} && w.pendingTx == {} && w.spentOutputs == {} && w.usedPKH == {} && w.allPKH == {}
    && w.balance == w.totalSent == w.totalReceived == w.blockHeight == 0 && w.feePerKb == DEFAULT_FEE_PER_KB
  }

  /** The keys that the first `n` outputs of a transaction pay to. */
  function Payees(pkhOf: ScriptPKH, tx: Tx, n: nat): set<PKH>
    requires n <= |tx.outputs|
  {
    set j | 0 <= j < n && pkhOf(tx.outputs[j].script).Some? :: pkhOf(tx.outputs[j].script).value
  }

  /** A known transaction pays to the key. */
  predicate IsPaid(w: Wallet, x: PKH)
    reads w`allTx
  {
    exists h :: h in w.allTx && x in Payees(w.pkhOf, w.allTx[h], |w.allTx[h].outputs|)
  }

  /** The chain ends with `n` keys that are not paid to, and not before one that is, unless no next key can be derived. */
  predicate EndsUnpaid(w: Wallet, derive: Derive, internal: bool, chain: seq<PKH>, n: nat)
    reads w`allTx
  {
    || derive(internal, |chain|).None?
    || (&& |chain| >= n && (forall k :: |chain| - n <= k < |chain| ==> !IsPaid(w, chain[k]))
        && (|chain| > n ==> IsPaid(w, chain[|chain| - n - 1])))
  }

  /** The loop over the saved transactions: signed ones are added once, in order of height. */
  method AddSaved(w: Wallet, saved: seq<Tx>, ghost rank: Hash -> nat)
    requires IsBlank(w) && forall i :: 0 <= i < |saved| ==> RankedTx(saved[i], rank)
    modifies w`allTx, w`transactions, w`usedPKH
    ensures w.Valid() && SortedByHeight(w.allTx, w.transactions) && Ranked(w.allTx, rank)
    ensures forall h :: h in w.transactions <==> h in w.allTx
    ensures forall h :: h in w.allTx ==> w.allTx[h] in saved && IsSigned(w.allTx[h])
    ensures forall tx :: tx in saved && IsSigned(tx) ==> tx.txHash in w.allTx
    ensures forall x :: x in w.usedPKH <==> IsPaid(w, x)
  {
    hide SortedByHeight, Payees, IsSigned, InsertAt, RankedTx, IsSlot;
    NothingSorted(w.allTx);
    for i := 0 to |saved|
      invariant w.Valid() && SortedByHeight(w.allTx, w.transactions) && Ranked(w.allTx, rank)
      invariant forall h :: h in w.transactions <==> h in w.allTx
      invariant forall h :: h in w.allTx ==> w.allTx[h] in saved && IsSigned(w.allTx[h])
      invariant forall k :: 0 <= k < i && IsSigned(saved[k]) ==> saved[k].txHash in w.allTx
      invariant forall x :: x in w.usedPKH <==> IsPaid(w, x)
    {
      var tx := saved[i];
      if !IsSigned(tx) || tx.txHash in w.allTx {
        continue;
      }
      ghost var before, list, used := w.allTx, w.transactions, w.usedPKH;
      w.allTx := w.allTx[tx.txHash := tx];
      SortedElsewhere(before, w.allTx, list, tx.txHash);
      ghost var pos := InsertTx(w, tx, rank);
      MembersAfterInsert(list, pos, tx.txHash);
      AddPayees(w, tx);
      forall x ensures x in w.usedPKH <==> IsPaid(w, x) {
        PaidStep(w, before, tx, x);
      }
    }
  }

  /** The inner loop. */
  method AddPayees(w: Wallet, tx: Tx)
    modifies w`usedPKH
    ensures w.usedPKH == old(w.usedPKH) + Payees(w.pkhOf, tx, |tx.outputs|)
  {
    for j := 0 to |tx.outputs|
      invariant w.usedPKH == old(w.usedPKH) + Payees(w.pkhOf, tx, j)
    {
      var pkh := w.pkhOf(tx.outputs[j].script);
      if pkh.Some? {
        w.usedPKH := w.usedPKH + {pkh.value};
      }
    }
  }

  lemma PaidStep(w: Wallet, before: map<Hash, Tx>, tx: Tx, x: PKH)
    requires tx.txHash !in before && w.allTx == before[tx.txHash := tx]
    ensures IsPaid(w, x) <==> || x in Payees(w.pkhOf, tx, |tx.outputs|)
                              || exists h :: h in before && x in Payees(w.pkhOf, before[h], |before[h].outputs|)
  {
    hide Payees;
    assert w.allTx[tx.txHash] == tx;
    forall h | h in before ensures w.allTx[h] == before[h] {
    }
    if h :| h in before && x in Payees(w.pkhOf, before[h], |before[h].outputs|) {
      assert h in w.allTx;
    }
  }

  /** A chain grown from nothing behind the used keys ends like that. */
  lemma GrownEnds(w: Wallet, derive: Derive, internal: bool, chain: seq<PKH>, used: set<PKH>, n: nat)
    requires GrownFrom([], chain, used, n) && n > 0 && forall x :: x in used <==> IsPaid(w, x)
    requires Gap(chain, used) >= n || derive(internal, |chain|).None?
    ensures EndsUnpaid(w, derive, internal, chain, n)
  {
    hide IsPaid, GrownFrom, Gap;
    GapMeans(chain, used);
    if Gap(chain, used) >= n {
      GrowthIsLeast([], chain, used, n);
      assert chain != [] by { NoGap(used); }
    }
  }

  lemma NoGap(used: set<PKH>)
    ensures Gap([], used) == 0
  {
  }

  /** One of the `n` keys before position `m` is paid to. */
  ghost predicate PaysBefore(w: Wallet, derive: Derive, internal: bool, m: nat, n: nat)
    reads w`allTx
  {
    exists j: nat :: m - n <= j < m && derive(internal, j).Some? && IsPaid(w, derive(internal, j).value)
  }

  /** So every key paid to is found if no `n` keys in a row before it are passed over. */
  lemma PaidIsFound(w: Wallet, derive: Derive, internal: bool, chain: seq<PKH>, n: nat, k: nat)
    requires IsChain(derive, internal, chain) && EndsUnpaid(w, derive, internal, chain, n)
    requires forall m :: 0 <= m <= k ==> derive(internal, m).Some?
    requires forall m :: n <= m <= k ==> PaysBefore(w, derive, internal, m, n)
    ensures k < |chain|
  {
    NoneBefore(w, derive, internal, chain, n);
  }

  lemma NoneBefore(w: Wallet, derive: Derive, internal: bool, chain: seq<PKH>, n: nat)
    requires IsChain(derive, internal, chain) && EndsUnpaid(w, derive, internal, chain, n)
    ensures derive(internal, |chain|).Some? ==> |chain| >= n && !PaysBefore(w, derive, internal, |chain|, n)
  {
    hide IsPaid;
    forall j: nat | |chain| - n <= j < |chain| && derive(internal, |chain|).Some?
      ensures derive(internal, j) == Some(chain[j]) && !IsPaid(w, chain[j])
    {
    }
  }

  lemma NothingSorted(allTx: map<Hash, Tx>)
    ensures SortedByHeight(allTx, [])
  {
  }

  lemma MembersAfterInsert(list: seq<Hash>, pos: nat, h: Hash)
    requires pos <= |list|
    ensures forall x :: x in InsertAt(list, pos, h) <==> x == h || x in list
  {
    forall x | x in list ensures x in InsertAt(list, pos, h) {
      var k :| 0 <= k < |list| && list[k] == x;
      assert InsertAt(list, pos, h)[if k < pos then k else k + 1] == x;
    }
    assert InsertAt(list, pos, h)[pos] == h;
  }

  /** The wallet is refused if there are saved transactions and the first does not concern it; only
      the first is looked at, so the ledger invariant needs the others to concern it too.  Every
      derived field is up to date in the end. */
  method Load(w: Wallet, saved: seq<Tx>, derive: Derive, movedExternal: bool, movedInternal: bool, now: int, ghost rank: Hash -> nat)
      returns (ok: bool)
    requires IsBlank(w) && forall i :: 0 <= i < |saved| ==> RankedTx(saved[i], rank)
    requires Injective(derive, true) && Injective(derive, false)
    modifies w
    ensures w.Valid() && SortedByHeight(w.allTx, w.transactions) && Ranked(w.allTx, rank) && ChainsValid(w, derive)
    ensures forall h :: h in w.transactions <==> exists tx :: tx in saved && IsSigned(tx) && tx.txHash == h
    ensures ok <==> saved == [] || Concerns(w.pkhOf, w.allPKH, w.allTx, saved[0])
    ensures UpToDate(w, now)
    ensures (forall tx :: tx in saved ==> Concerns(w.pkhOf, w.allPKH, w.allTx, tx)) ==> Ledger(w)
    ensures forall h :: h in w.allTx ==> w.allTx[h] in saved
    ensures derive(false, 0).Some? ==> derive(false, 0).value in w.allPKH
    ensures EndsUnpaid(w, derive, false, w.externalChain, GAP_LIMIT_EXTERNAL_EXTENDED)
    ensures EndsUnpaid(w, derive, true, w.internalChain, GAP_LIMIT_INTERNAL_EXTENDED)
  {
    hide Concerns, SortedByHeight, IsSigned, RankedTx, Ranked, Injective, GrownFrom, Gap, UpToDate, IsChain, Registered;
    EmptyChains(w, derive);
    AddSaved(w, saved, rank);
    var addrs := UnusedAddrs(w, derive, GAP_LIMIT_EXTERNAL_EXTENDED, false, movedExternal);
    FirstKey(w, derive);
    GrownEnds(w, derive, false, w.externalChain, w.usedPKH, GAP_LIMIT_EXTERNAL_EXTENDED);
    addrs := UnusedAddrs(w, derive, GAP_LIMIT_INTERNAL_EXTENDED, true, movedInternal);
    GrownEnds(w, derive, true, w.internalChain, w.usedPKH, GAP_LIMIT_INTERNAL_EXTENDED);
    UpdateBalance(w, now);
    ok := true;
    if |saved| > 0 {
      ok := ContainsTx(w, saved[0]);
    }
  }

  /** For example, of two saved transactions only the first pays to a key of the wallet: it is accepted,
      and the other is registered though it does not concern it. */
  method LoadStranger(w: Wallet, own: seq<Byte>, foreign: seq<Byte>, derive: Derive, now: int, ghost rank: Hash -> nat)
      returns (ok: bool, stranger: Tx)
    requires IsBlank(w) && Injective(derive, true) && Injective(derive, false)
    requires derive(false, 0).Some? && w.pkhOf(own) == derive(false, 0) && w.pkhOf(foreign) == None
    modifies w
    ensures ok && stranger.txHash in w.transactions
    ensures !Concerns(w.pkhOf, w.allPKH, w.allTx, stranger) && !Ledger(w)
  {
    hide UpToDate, SortedByHeight, ChainsValid, Injective;
    var first := Tx(1, 1, [], [TxOutput(1, own)], 0, TX_UNCONFIRMED, 0);
    stranger := Tx(2, 1, [], [TxOutput(1, foreign)], 0, TX_UNCONFIRMED, 0);
    ok := Load(w, [first, stranger], derive, false, false, now, rank);
    assert OwnsScript(w.pkhOf, w.allPKH, first.outputs[0]);
    assert stranger in [first, stranger] && IsSigned(stranger);
    assert w.allTx[2] == stranger;
  }

  /** Once the external chain has been filled it starts with the first key. */
  lemma FirstKey(w: Wallet, derive: Derive)
    requires ChainsValid(w, derive)
    requires Gap(w.externalChain, w.usedPKH) >= 1 || derive(false, |w.externalChain|).None?
    ensures derive(false, 0).Some? ==> derive(false, 0).value in w.allPKH
  {
    if derive(false, 0).Some? {
      assert w.externalChain != [];
      assert w.externalChain[0] in w.externalChain;
    }
  }

  lemma EmptyChains(w: Wallet, derive: Derive)
    requires IsBlank(w)
    ensures ChainsValid(w, derive)
  {
  }
}

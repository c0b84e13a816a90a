/** The loops of `_BRWalletUpdateBalance`, proved against the specification of WalletBalance. */
module BalanceUpdate {
  import opened Wrappers
  import opened Transactions
  import opened WalletState
  import opened WalletBalance

  /** The wallet's sets and unspent outputs are what the specification says about `txs`. */
  ghost predicate ReflectsBook(w: Wallet, env: Env, txs: seq<Tx>)
    reads w`allTx, w`invalidTx, w`pendingTx, w`spentOutputs, w`usedPKH, w`utxos
  {
    && w.invalidTx == BookOf(env, txs).invalid
    && w.pendingTx == BookOf(env, txs).pending
    && w.spentOutputs == BookOf(env, txs).spent
    && w.usedPKH == AllPaidTo(env, BookOf(env, txs).accepted)
    && w.utxos == Utxos(env, txs)
    && Resolvable(w.allTx, w.utxos)
  }

  /** So are its balance history and the totals derived from it. */
  ghost predicate ReflectsHistory(w: Wallet, env: Env, txs: seq<Tx>)
    reads w`allTx, w`balanceHist, w`totalReceived, w`totalSent
  {
    && w.balanceHist == History(env, w.allTx, txs)
    && w.totalReceived == Rises(w.balanceHist) % UINT64
    && w.totalSent == Falls(w.balanceHist) % UINT64
  }

  /** Every derived field is up to date with the registered transactions. */
  ghost predicate UpToDate(w: Wallet, now: int)
    reads w
    requires forall h :: h in w.transactions ==> h in w.allTx
  {
    var env, txs := EnvOf(w, now), Listed(w.allTx, w.transactions);
    ReflectsBook(w, env, txs) && ReflectsHistory(w, env, txs) && w.balance == Balance(env, w.allTx, txs)
  }

  // ----- the inner loops

  method CheckInvalid(w: Wallet, ghost b: Book, tx: Tx) returns (isInvalid: bool)
    requires w.spentOutputs == b.spent && w.invalidTx == b.invalid
    requires tx.blockHeight == TX_UNCONFIRMED
    ensures isInvalid == IsInvalid(b, tx)
  {
    isInvalid := false;
    var j := 0;
    while !isInvalid && j < |tx.inputs|
      invariant j <= |tx.inputs|
      invariant isInvalid ==> IsInvalid(b, tx)
      invariant !isInvalid ==> forall k :: 0 <= k < j ==>
                  Spends(tx.inputs[k]) !in b.spent && tx.inputs[k].txHash !in b.invalid
      decreases |tx.inputs| - j, !isInvalid
    {
      if Outpoint(tx.inputs[j].txHash, tx.inputs[j].index) in w.spentOutputs || tx.inputs[j].txHash in w.invalidTx {
        isInvalid := true;
      } else {
        j := j + 1;
      }
    }
  }

  method AddSpent(w: Wallet, tx: Tx)
    modifies w`spentOutputs
    ensures w.spentOutputs == old(w.spentOutputs) + SpentBy(tx)
  {
    for j := 0 to |tx.inputs|
      invariant w.spentOutputs == old(w.spentOutputs) + set k | 0 <= k < j :: Spends(tx.inputs[k])
    {
      w.spentOutputs := w.spentOutputs + {Outpoint(tx.inputs[j].txHash, tx.inputs[j].index)};
    }
  }

  method CheckPending(w: Wallet, env: Env, tx: Tx) returns (isPending: bool)
    requires env == EnvOf(w, env.now) && tx.blockHeight == TX_UNCONFIRMED
    ensures isPending == IsPending(env, w.pendingTx, tx)
  {
    hide VSize;
    var size := TransactionVSize(tx);
    isPending := size > TX_MAX_SIZE;
    var j := 0;
    while !isPending && j < |tx.outputs|
      invariant j <= |tx.outputs|
      invariant isPending ==> IsPending(env, w.pendingTx, tx)
      invariant !isPending ==> size <= TX_MAX_SIZE
      invariant !isPending ==> forall k :: 0 <= k < j ==> tx.outputs[k].amount >= TX_MIN_OUTPUT_AMOUNT
    {
      if tx.outputs[j].amount < TX_MIN_OUTPUT_AMOUNT {
        isPending := true;
      }
      j := j + 1;
    }
    j := 0;
    while !isPending && j < |tx.inputs|
      invariant j <= |tx.inputs|
      invariant isPending ==> IsPending(env, w.pendingTx, tx)
      invariant !isPending ==> size <= TX_MAX_SIZE
      invariant !isPending ==> forall k :: 0 <= k < |tx.outputs| ==> tx.outputs[k].amount >= TX_MIN_OUTPUT_AMOUNT
      invariant !isPending ==> forall k :: 0 <= k < j ==> !HoldsBack(env, w.pendingTx, tx, tx.inputs[k])
    {
      var input := tx.inputs[j];
      if input.sequence < UINT32_MAX - 1 {
        isPending := true;
      }
      if input.sequence < UINT32_MAX && tx.lockTime < TX_MAX_LOCK_HEIGHT
         && tx.lockTime > (w.blockHeight + 1) % 0x1_0000_0000 {
        isPending := true;
      }
      if input.sequence < UINT32_MAX && tx.lockTime > env.now {
        isPending := true;
      }
      if input.txHash in w.pendingTx {
        isPending := true;
      }
      assert isPending ==> HoldsBack(env, w.pendingTx, tx, tx.inputs[j]);
      j := j + 1;
    }
  }

  lemma AddModulo(total: nat, more: nat)
    ensures (total % UINT64 + more) % UINT64 == (total + more) % UINT64
  {
  }

  lemma SubtractModulo(total: nat, less: nat)
    requires less <= total
    ensures (total % UINT64 - less) % UINT64 == (total - less) % UINT64
  {
  }

  /** Adds the outputs of `tx` that pay to the wallet. */
  method AddOutputs(w: Wallet, env: Env, tx: Tx, balance0: nat, ghost total: nat) returns (balance: nat)
    requires env == EnvOf(w, env.now)
    requires tx.txHash in w.allTx && w.allTx[tx.txHash] == tx
    requires balance0 == total % UINT64
    modifies w`utxos, w`usedPKH
    ensures w.utxos == old(w.utxos) + OwnedOutputs(env, tx, |tx.outputs|)
    ensures w.usedPKH == old(w.usedPKH) + PaidTo(env, tx, |tx.outputs|)
    ensures balance == (total + Total(w.allTx, OwnedOutputs(env, tx, |tx.outputs|))) % UINT64
  {
    hide OwnedOutputs, Total, PaidTo, ValueOf;
    NothingOwned(w.allTx, env, tx);
    balance := balance0;
    for j := 0 to |tx.outputs|
      invariant w.utxos == old(w.utxos) + OwnedOutputs(env, tx, j)
      invariant w.usedPKH == old(w.usedPKH) + PaidTo(env, tx, j)
      invariant balance == (total + Total(w.allTx, OwnedOutputs(env, tx, j))) % UINT64
    {
      var pkh := w.pkhOf(tx.outputs[j].script);
      OwnedStep(w.allTx, env, tx, j);
      AddModulo(total + Total(w.allTx, OwnedOutputs(env, tx, j)), tx.outputs[j].amount);
      if pkh.Some? && pkh.value in w.allPKH {
        w.usedPKH := w.usedPKH + {pkh.value};
        w.utxos := w.utxos + [Outpoint(tx.txHash, j)];
        balance := (balance + tx.outputs[j].amount) % UINT64;
      }
    }
  }

  lemma NothingOwned(allTx: map<Hash, Tx>, env: Env, tx: Tx)
    ensures OwnedOutputs(env, tx, 0) == [] && PaidTo(env, tx, 0) == {} && Total(allTx, []) == 0
  {
  }

  lemma OwnedStep(allTx: map<Hash, Tx>, env: Env, tx: Tx, j: nat)
    requires j < |tx.outputs| && tx.txHash in allTx && allTx[tx.txHash] == tx
    ensures var mine, o := OwnedOutputs(env, tx, j), Outpoint(tx.txHash, j);
            if IsOwned(env, tx.outputs[j]) then
              && OwnedOutputs(env, tx, j + 1) == mine + [o]
              && PaidTo(env, tx, j + 1) == PaidTo(env, tx, j) + {env.pkhOf(tx.outputs[j].script).value}
              && Total(allTx, mine + [o]) == Total(allTx, mine) + tx.outputs[j].amount
            else
              && OwnedOutputs(env, tx, j + 1) == mine
              && PaidTo(env, tx, j + 1) == PaidTo(env, tx, j)
  {
    TotalConcat(allTx, OwnedOutputs(env, tx, j), [Outpoint(tx.txHash, j)]);
  }

  /** Every unspent output is an output of a known transaction. */
  ghost predicate Resolvable(allTx: map<Hash, Tx>, s: seq<Outpoint>) {
    forall o :: o in s ==> o.hash in allTx && o.n < |allTx[o.hash].outputs|
  }

  /** Drops all spent outputs, walking from the end; checks the entire set because the order of
      transactions is not guaranteed. */
  method DropSpent(w: Wallet, balance0: nat) returns (balance: nat)
    requires Resolvable(w.allTx, w.utxos)
    requires balance0 == Total(w.allTx, w.utxos) % UINT64
    modifies w`utxos
    ensures w.utxos == Without(old(w.utxos), w.spentOutputs)
    ensures balance == Total(w.allTx, w.utxos) % UINT64
  {
    hide Without, Total;
    balance := balance0;
    ghost var u0 := w.utxos;
    var j := |w.utxos|;
    NothingDropped(u0, w.spentOutputs);
    while j > 0
      invariant 0 <= j <= |u0|
      invariant w.utxos == u0[..j] + Without(u0[j..], w.spentOutputs)
      invariant balance == Total(w.allTx, w.utxos) % UINT64
    {
      DropStep(w.allTx, u0, j, w.utxos, w.spentOutputs);
      var o := w.utxos[j - 1];
      if o in w.spentOutputs {
        assert o in u0;
        var t := w.allTx[o.hash];
        SubtractModulo(Total(w.allTx, w.utxos), t.outputs[o.n].amount);
        balance := (balance - t.outputs[o.n].amount) % UINT64;
        w.utxos := w.utxos[..j - 1] + w.utxos[j..];
      }
      j := j - 1;
    }
    assert u0[..0] == [] && u0[0..] == u0;
  }

  lemma NothingDropped(u: seq<Outpoint>, gone: set<Outpoint>)
    ensures u[..|u|] + Without(u[|u|..], gone) == u
  {
    assert u[|u|..] == [];
  }

  lemma DropStep(allTx: map<Hash, Tx>, u: seq<Outpoint>, j: nat, now: seq<Outpoint>, gone: set<Outpoint>)
    requires 0 < j <= |u| && now == u[..j] + Without(u[j..], gone)
    ensures now[j - 1] == u[j - 1]
    ensures u[j - 1] in gone ==>
              && now[..j - 1] + now[j..] == u[..j - 1] + Without(u[j - 1..], gone)
              && Total(allTx, now) == Total(allTx, now[..j - 1] + now[j..]) + ValueOf(allTx, u[j - 1])
    ensures u[j - 1] !in gone ==> now == u[..j - 1] + Without(u[j - 1..], gone)
  {
    hide Without, Total;
    var o, kept, low := u[j - 1], Without(u[j..], gone), u[..j - 1];
    assert u[..j] == low + [o];
    WithoutHead(u, j - 1, gone);
    if o in gone {
      assert now[..j - 1] + now[j..] == low + kept;
      TotalConcat(allTx, low + [o], kept);
      TotalConcat(allTx, low, [o]);
      TotalConcat(allTx, low, kept);
      TotalSingle(allTx, o);
    } else {
      assert now == low + ([o] + kept);
    }
  }

  lemma WithoutHead(u: seq<Outpoint>, j: nat, gone: set<Outpoint>)
    requires j < |u|
    ensures Without(u[j..], gone) == (if u[j] in gone then [] else [u[j]]) + Without(u[j + 1..], gone)
  {
    assert u[j..][1..] == u[j + 1..];
  }

  lemma TotalSingle(allTx: map<Hash, Tx>, o: Outpoint)
    ensures Total(allTx, [o]) == ValueOf(allTx, o)
  {
    assert [o][1..] == [];
  }

  // ----- one transaction

  /** The part of a turn of the main loop that classifies `tx` and, if it is accepted, updates
      the unspent outputs. */
  method Settle(w: Wallet, env: Env, ghost txs: seq<Tx>, tx: Tx, balance0: nat) returns (balance: nat, accepted: bool)
    requires env == EnvOf(w, env.now)
    requires tx.txHash in w.allTx && w.allTx[tx.txHash] == tx
    requires ReflectsBook(w, env, txs) && balance0 == Balance(env, w.allTx, txs)
    modifies w`invalidTx, w`pendingTx, w`spentOutputs, w`usedPKH, w`utxos
    ensures ReflectsBook(w, env, txs + [tx]) && balance == Balance(env, w.allTx, txs + [tx])
    ensures !accepted ==> balance == balance0
  {
    hide IsInvalid, IsPending, Utxos, AllPaidTo, Balance, Resolvable, Classify, Enter, BookOf;
    balance, accepted := balance0, false;
    ghost var b := BookOf(env, txs);
    BookOfAppend(env, txs, tx);
    EnterCases(env, b, tx);
    ConfirmedIsAccepted(env, b, tx);
    var isInvalid, isPending := false, false;
    if tx.blockHeight == TX_UNCONFIRMED {
      isInvalid := CheckInvalid(w, b, tx);
      if isInvalid {
        UtxosSkipped(env, txs, tx);
        w.invalidTx := w.invalidTx + {tx.txHash};
        return;
      }
    }
    AddSpent(w, tx);
    if tx.blockHeight == TX_UNCONFIRMED {
      isPending := CheckPending(w, env, tx);
      if isPending {
        UtxosSkipped(env, txs, tx);
        w.pendingTx := w.pendingTx + {tx.txHash};
        return;
      }
    }
    accepted := true;
    balance := Accept(w, env, txs, tx, balance);
  }

  /** What entering a transaction does to the book, and what decides its class. */
  lemma EnterCases(env: Env, b: Book, tx: Tx)
    ensures var c, e := Classify(env, b, tx), Enter(env, b, tx);
            && (c == Invalid <==> IsInvalid(b, tx)) && (c == Pending <==> !IsInvalid(b, tx) && IsPending(env, b.pending, tx))
            && e.invalid == (if c == Invalid then b.invalid + {tx.txHash} else b.invalid)
            && e.pending == (if c == Pending then b.pending + {tx.txHash} else b.pending)
            && e.spent == (if c == Invalid then b.spent else b.spent + SpentBy(tx))
            && (c != Accepted ==> e.accepted == b.accepted && e.settled == b.settled)
  {
    hide IsInvalid, IsPending;
  }

  /** The accepted case: adds the outputs of `tx` to the unspent ones and drops what is spent. */
  method Accept(w: Wallet, env: Env, ghost txs: seq<Tx>, tx: Tx, balance0: nat) returns (balance: nat)
    requires env == EnvOf(w, env.now)
    requires tx.txHash in w.allTx && w.allTx[tx.txHash] == tx
    requires Classify(env, BookOf(env, txs), tx) == Accepted
    requires w.spentOutputs == BookOf(env, txs + [tx]).spent
    requires w.utxos == Utxos(env, txs) && Resolvable(w.allTx, w.utxos)
    requires w.usedPKH == AllPaidTo(env, BookOf(env, txs).accepted)
    requires balance0 == Balance(env, w.allTx, txs)
    modifies w`usedPKH, w`utxos
    ensures w.utxos == Utxos(env, txs + [tx]) && Resolvable(w.allTx, w.utxos)
    ensures w.usedPKH == AllPaidTo(env, BookOf(env, txs + [tx]).accepted)
    ensures balance == Balance(env, w.allTx, txs + [tx])
  {
    hide Classify, Utxos, AllPaidTo, Total, Resolvable;
    var mine := OwnedOutputs(env, tx, |tx.outputs|);
    BookOfAppend(env, txs, tx);
    UtxosAccepted(env, txs, tx);
    PaidToAccepted(env, BookOf(env, txs).accepted, tx);
    TotalConcat(w.allTx, w.utxos, mine);
    OwnedResolvable(env, w.allTx, tx, |tx.outputs|);
    ResolvableConcat(w.allTx, w.utxos, mine);
    balance := AddOutputs(w, env, tx, balance0, Total(w.allTx, w.utxos));
    WithoutResolvable(w.allTx, w.utxos, w.spentOutputs);
    balance := DropSpent(w, balance);
  }

  lemma ResolvableConcat(allTx: map<Hash, Tx>, a: seq<Outpoint>, b: seq<Outpoint>)
    requires Resolvable(allTx, a) && Resolvable(allTx, b)
    ensures Resolvable(allTx, a + b)
  {
  }

  /** The part of a turn that records the balance. */
  method Record(w: Wallet, env: Env, ghost txs: seq<Tx>, ghost tx: Tx, balance: nat, prevBalance: nat, accepted: bool)
    requires ReflectsHistory(w, env, txs) && prevBalance == Last(w.balanceHist)
    requires balance == Balance(env, w.allTx, txs + [tx])
    requires !accepted ==> balance == prevBalance
    modifies w`totalReceived, w`totalSent, w`balanceHist
    ensures ReflectsHistory(w, env, txs + [tx]) && balance == Last(w.balanceHist)
  {
    hide Balance, History, Rises, Falls;
    ghost var hist := w.balanceHist;
    HistoryAppend(env, w.allTx, txs, tx);
    RisesAppend(hist, balance);
    AddModulo(Rises(hist), if balance > prevBalance then balance - prevBalance else 0);
    AddModulo(Falls(hist), if balance < prevBalance then prevBalance - balance else 0);
    if accepted {
      if prevBalance < balance {
        w.totalReceived := (w.totalReceived + (balance - prevBalance)) % UINT64;
      }
      if balance < prevBalance {
        w.totalSent := (w.totalSent + (prevBalance - balance)) % UINT64;
      }
    }
    w.balanceHist := w.balanceHist + [balance];
  }

  lemma ConfirmedIsAccepted(env: Env, b: Book, tx: Tx)
    ensures tx.blockHeight != TX_UNCONFIRMED ==> Classify(env, b, tx) == Accepted
  {
  }

  lemma RisesAppend(hist: seq<nat>, balance: nat)
    ensures Rises(hist + [balance]) == Rises(hist) + (if balance > Last(hist) then balance - Last(hist) else 0)
    ensures Falls(hist + [balance]) == Falls(hist) + (if balance < Last(hist) then Last(hist) - balance else 0)
  {
    assert (hist + [balance])[..|hist|] == hist;
  }

  lemma PaidToAccepted(env: Env, accepted: seq<Tx>, tx: Tx)
    ensures AllPaidTo(env, accepted + [tx]) == AllPaidTo(env, accepted) + PaidTo(env, tx, |tx.outputs|)
  {
    assert (accepted + [tx])[..|accepted|] == accepted;
  }

  lemma {:induction false} OwnedResolvable(env: Env, allTx: map<Hash, Tx>, tx: Tx, n: nat)
    requires n <= |tx.outputs| && tx.txHash in allTx && allTx[tx.txHash] == tx
    ensures Resolvable(allTx, OwnedOutputs(env, tx, n))
  {
    if n > 0 {
      OwnedResolvable(env, allTx, tx, n - 1);
    }
  }

  lemma {:induction false} WithoutResolvable(allTx: map<Hash, Tx>, s: seq<Outpoint>, gone: set<Outpoint>)
    requires Resolvable(allTx, s)
    ensures Resolvable(allTx, Without(s, gone))
  {
    if s != [] {
      forall o | o in s[1..] ensures o in s {}
      WithoutResolvable(allTx, s[1..], gone);
    }
  }

  // ----- the pass

  /** `_BRWalletUpdateBalance`: afterwards every derived field reflects the registered
      transactions, and entry `i` of the history is the balance after the first `i + 1`. */
  method UpdateBalance(w: Wallet, now: int)
    requires w.Valid()
    modifies w`balance, w`totalSent, w`totalReceived, w`balanceHist, w`utxos,
             w`invalidTx, w`pendingTx, w`spentOutputs, w`usedPKH
    ensures UpToDate(w, now)
    ensures |w.balanceHist| == |w.transactions|
  {
    hide Balance, ReflectsBook, ReflectsHistory;
    ghost var txs := Listed(w.allTx, w.transactions);
    var env := EnvOf(w, now);
    var balance, prevBalance, accepted := 0, 0, false;
    w.utxos, w.balanceHist, w.spentOutputs := [], [], {};
    w.invalidTx, w.pendingTx, w.usedPKH := {}, {}, {};
    w.totalSent, w.totalReceived := 0, 0;
    EmptyReflected(w, env);
    assert txs[..0] == [];
    for i := 0 to |w.transactions|
      invariant ReflectsBook(w, env, txs[..i]) && ReflectsHistory(w, env, txs[..i])
      invariant prevBalance == Balance(env, w.allTx, txs[..i]) == Last(w.balanceHist)
      invariant balance == prevBalance
    {
      var tx := w.allTx[w.transactions[i]];
      assert txs[..i + 1] == txs[..i] + [tx];
      balance, accepted := Settle(w, env, txs[..i], tx, balance);
      Record(w, env, txs[..i], tx, balance, prevBalance, accepted);
      prevBalance := balance;
    }
    assert txs[..|w.transactions|] == txs;
    w.balance := balance;
    HistoryLength(w, env, txs);
  }

  lemma EmptyReflected(w: Wallet, env: Env)
    requires w.utxos == [] && w.balanceHist == [] && w.spentOutputs == {}
    requires w.invalidTx == {} && w.pendingTx == {} && w.usedPKH == {}
    requires w.totalReceived == w.totalSent == 0
    ensures ReflectsBook(w, env, []) && ReflectsHistory(w, env, []) && Balance(env, w.allTx, []) == 0
  {
  }

  lemma HistoryLength(w: Wallet, env: Env, txs: seq<Tx>)
    requires ReflectsHistory(w, env, txs)
    ensures |w.balanceHist| == |txs|
  {
    HistoryCount(env, w.allTx, txs);
  }

  lemma {:induction false} HistoryCount(env: Env, allTx: map<Hash, Tx>, txs: seq<Tx>)
    ensures |History(env, allTx, txs)| == |txs|
  {
    if txs != [] {
      HistoryCount(env, allTx, txs[..|txs| - 1]);
    }
  }
}

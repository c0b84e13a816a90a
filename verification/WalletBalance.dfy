/** `_BRWalletUpdateBalance` of bitcoin/BRWallet.c: one pass over the registered transactions that
    classifies them and keeps the unspent outputs and the balance up to date. */
module WalletBalance {
  import opened Wrappers
  import opened Transactions
  import opened WalletState

  // ----- specification: classifying transactions in order

  /** What the pass depends on besides the transactions. */
  datatype Env = Env(pkhOf: ScriptPKH, owned: set<PKH>, now: int, blockHeight: nat)

  datatype Status = Invalid | Pending | Accepted

  /** What is known after some transactions: hashes classed invalid and pending, everything spent
      by transactions not invalid, the accepted transactions in order, and `settled`, what was
      spent when the last of them was accepted. */
  datatype Book = Book(invalid: set<Hash>, pending: set<Hash>, spent: set<Outpoint>,
                       accepted: seq<Tx>, settled: set<Outpoint>)

  const EMPTY: Book := Book({}, {}, {}, [], {})

  function Spends(i: TxInput): Outpoint { Outpoint(i.txHash, i.index) }

  function SpentBy(tx: Tx): set<Outpoint> {
    set j | 0 <= j < |tx.inputs| :: Spends(tx.inputs[j])
  }

  /** An unconfirmed transaction is invalid if an input is spent already or comes from an invalid one. */
  predicate IsInvalid(b: Book, tx: Tx) {
    tx.blockHeight == TX_UNCONFIRMED
    && exists j :: 0 <= j < |tx.inputs| && (Spends(tx.inputs[j]) in b.spent || tx.inputs[j].txHash in b.invalid)
  }

  /** The input makes its transaction replaceable, not final yet, or dependent on a pending one. */
  predicate HoldsBack(env: Env, pending: set<Hash>, tx: Tx, i: TxInput) {
    || i.sequence < UINT32_MAX - 1
    || (i.sequence < UINT32_MAX && tx.lockTime < TX_MAX_LOCK_HEIGHT
        && tx.lockTime > (env.blockHeight + 1) % 0x1_0000_0000)
    || (i.sequence < UINT32_MAX && tx.lockTime > env.now)
    || i.txHash in pending
  }

  predicate IsPending(env: Env, pending: set<Hash>, tx: Tx) {
    && tx.blockHeight == TX_UNCONFIRMED
    && (|| VSize(tx) > TX_MAX_SIZE
        || (exists j :: 0 <= j < |tx.outputs| && tx.outputs[j].amount < TX_MIN_OUTPUT_AMOUNT)
        || (exists j :: 0 <= j < |tx.inputs| && HoldsBack(env, pending, tx, tx.inputs[j])))
  }

  function Classify(env: Env, b: Book, tx: Tx): Status {
    if IsInvalid(b, tx) then Invalid
    else if IsPending(env, b.pending, tx) then Pending
    else Accepted
  }

  /** The book after one more transaction. */
  function Enter(env: Env, b: Book, tx: Tx): Book {
    match Classify(env, b, tx)
    case Invalid => b.(invalid := b.invalid + {tx.txHash})
    case Pending => b.(spent := b.spent + SpentBy(tx), pending := b.pending + {tx.txHash})
    case Accepted => b.(spent := b.spent + SpentBy(tx), settled := b.spent + SpentBy(tx), accepted := b.accepted + [tx])
  }

  function BookOf(env: Env, txs: seq<Tx>): Book {
    if txs == [] then EMPTY else Enter(env, BookOf(env, txs[..|txs| - 1]), txs[|txs| - 1])
  }

  /** The class of the transaction at `i`, which depends only on those before it. */
  function StatusAt(env: Env, txs: seq<Tx>, i: nat): Status
    requires i < |txs|
  {
    Classify(env, BookOf(env, txs[..i]), txs[i])
  }

  // ----- specification: unspent outputs and balance

  predicate IsOwned(env: Env, o: TxOutput) {
    env.pkhOf(o.script).Some? && env.pkhOf(o.script).value in env.owned
  }

  /** The first `n` outputs of `tx` that pay to the wallet, in order. */
  function OwnedOutputs(env: Env, tx: Tx, n: nat): seq<Outpoint>
    requires n <= |tx.outputs|
  {
    if n == 0 then []
    else OwnedOutputs(env, tx, n - 1) + (if IsOwned(env, tx.outputs[n - 1]) then [Outpoint(tx.txHash, n - 1)] else [])
  }

  function AllOwned(env: Env, txs: seq<Tx>): seq<Outpoint> {
    if txs == [] then []
    else AllOwned(env, txs[..|txs| - 1]) + OwnedOutputs(env, txs[|txs| - 1], |txs[|txs| - 1].outputs|)
  }

  function Without(s: seq<Outpoint>, gone: set<Outpoint>): seq<Outpoint> {
    if s == [] then [] else (if s[0] in gone then [] else [s[0]]) + Without(s[1..], gone)
  }

  /** The unspent outputs: those of accepted transactions, minus what was spent by the time the
      last of them was accepted. */
  function Utxos(env: Env, txs: seq<Tx>): seq<Outpoint> {
    var b := BookOf(env, txs);
    Without(AllOwned(env, b.accepted), b.settled)
  }

  function ValueOf(allTx: map<Hash, Tx>, o: Outpoint): nat {
    if o.hash in allTx && o.n < |allTx[o.hash].outputs| then allTx[o.hash].outputs[o.n].amount else 0
  }

  function Total(allTx: map<Hash, Tx>, s: seq<Outpoint>): nat {
    if s == [] then 0 else ValueOf(allTx, s[0]) + Total(allTx, s[1..])
  }

  /** The balance, in 64-bit arithmetic. */
  function Balance(env: Env, allTx: map<Hash, Tx>, txs: seq<Tx>): nat {
    Total(allTx, Utxos(env, txs)) % UINT64
  }

  /** Entry `i` is the balance of the first `i + 1` transactions. */
  function History(env: Env, allTx: map<Hash, Tx>, txs: seq<Tx>): seq<nat> {
    if txs == [] then [] else History(env, allTx, txs[..|txs| - 1]) + [Balance(env, allTx, txs)]
  }

  /** The public key hashes that accepted transactions pay to. */
  function PaidTo(env: Env, tx: Tx, n: nat): set<PKH>
    requires n <= |tx.outputs|
  {
    set j | 0 <= j < n && IsOwned(env, tx.outputs[j]) :: env.pkhOf(tx.outputs[j].script).value
  }

  function AllPaidTo(env: Env, txs: seq<Tx>): set<PKH> {
    if txs == [] then {}
    else AllPaidTo(env, txs[..|txs| - 1]) + PaidTo(env, txs[|txs| - 1], |txs[|txs| - 1].outputs|)
  }

  /** Sum of the increases along `hist`, starting from a balance of zero. */
  function Rises(hist: seq<nat>): nat {
    if hist == [] then 0
    else Rises(hist[..|hist| - 1]) + (if Last(hist) > Before(hist) then Last(hist) - Before(hist) else 0)
  }

  function Falls(hist: seq<nat>): nat {
    if hist == [] then 0
    else Falls(hist[..|hist| - 1]) + (if Last(hist) < Before(hist) then Before(hist) - Last(hist) else 0)
  }

  function Last(hist: seq<nat>): nat { if hist == [] then 0 else hist[|hist| - 1] }

  function Before(hist: seq<nat>): nat
    requires hist != []
  {
    Last(hist[..|hist| - 1])
  }

  function EnvOf(w: Wallet, now: int): Env
    reads w
  {
    Env(w.pkhOf, w.allPKH, now, w.blockHeight)
  }

  // ----- facts about the specification

  lemma BookOfAppend(env: Env, txs: seq<Tx>, tx: Tx)
    ensures BookOf(env, txs + [tx]) == Enter(env, BookOf(env, txs), tx)
  {
    assert (txs + [tx])[..|txs|] == txs;
  }

  lemma {:induction false} WithoutConcat(a: seq<Outpoint>, b: seq<Outpoint>, gone: set<Outpoint>)
    ensures Without(a + b, gone) == Without(a, gone) + Without(b, gone)
  {
    hide Without;
    if a == [] {
      WithoutNone(gone);
      assert a + b == b;
    } else {
      WithoutConcat(a[1..], b, gone);
      WithoutFirst(a, gone);
      WithoutFirst(a + b, gone);
      assert (a + b)[1..] == a[1..] + b;
      Reassociate(if a[0] in gone then [] else [a[0]], Without(a[1..], gone), Without(b, gone));
    }
  }

  lemma WithoutNone(gone: set<Outpoint>)
    ensures Without([], gone) == []
  {
  }

  lemma Reassociate(a: seq<Outpoint>, b: seq<Outpoint>, c: seq<Outpoint>)
    ensures a + (b + c) == (a + b) + c
  {
  }

  lemma WithoutFirst(s: seq<Outpoint>, gone: set<Outpoint>)
    requires s != []
    ensures Without(s, gone) == (if s[0] in gone then [] else [s[0]]) + Without(s[1..], gone)
  {
  }

  lemma {:induction false} WithoutTwice(s: seq<Outpoint>, less: set<Outpoint>, more: set<Outpoint>)
    requires less <= more
    ensures Without(Without(s, less), more) == Without(s, more)
  {
    if s != [] {
      WithoutTwice(s[1..], less, more);
      WithoutConcat(if s[0] in less then [] else [s[0]], Without(s[1..], less), more);
    }
  }

  lemma {:induction false} TotalConcat(allTx: map<Hash, Tx>, a: seq<Outpoint>, b: seq<Outpoint>)
    ensures Total(allTx, a + b) == Total(allTx, a) + Total(allTx, b)
  {
    if a == [] {
      assert a + b == b;
    } else {
      TotalConcat(allTx, a[1..], b);
      assert (a + b)[1..] == a[1..] + b;
    }
  }

  lemma {:induction false} SettledWithinSpent(env: Env, txs: seq<Tx>)
    ensures BookOf(env, txs).settled <= BookOf(env, txs).spent
  {
    if txs != [] {
      SettledWithinSpent(env, txs[..|txs| - 1]);
    }
  }

  /** Accepting a transaction: add its outputs, then drop everything spent. */
  lemma UtxosAccepted(env: Env, txs: seq<Tx>, tx: Tx)
    requires Classify(env, BookOf(env, txs), tx) == Accepted
    ensures Utxos(env, txs + [tx])
         == Without(Utxos(env, txs) + OwnedOutputs(env, tx, |tx.outputs|), BookOf(env, txs + [tx]).spent)
  {
    hide Classify;
    var b := BookOf(env, txs);
    var gone := b.spent + SpentBy(tx);
    BookOfAppend(env, txs, tx);
    SettledWithinSpent(env, txs);
    var owned := AllOwned(env, b.accepted);
    var mine := OwnedOutputs(env, tx, |tx.outputs|);
    assert (b.accepted + [tx])[..|b.accepted|] == b.accepted;
    WithoutConcat(owned, mine, gone);
    WithoutConcat(Without(owned, b.settled), mine, gone);
    WithoutTwice(owned, b.settled, gone);
  }

  lemma UtxosSkipped(env: Env, txs: seq<Tx>, tx: Tx)
    requires Classify(env, BookOf(env, txs), tx) != Accepted
    ensures Utxos(env, txs + [tx]) == Utxos(env, txs)
    ensures forall allTx :: Balance(env, allTx, txs + [tx]) == Balance(env, allTx, txs)
  {
    hide Classify;
    BookOfAppend(env, txs, tx);
  }

  lemma HistoryAppend(env: Env, allTx: map<Hash, Tx>, txs: seq<Tx>, tx: Tx)
    ensures History(env, allTx, txs + [tx]) == History(env, allTx, txs) + [Balance(env, allTx, txs + [tx])]
  {
    assert (txs + [tx])[..|txs|] == txs;
  }
}

/** The wallet of bitcoin/BRWallet.c: its fields, and what its sets and lists mean. */
module WalletState {
  import opened Wrappers
  import opened Bytes
  import opened Transactions

  /** A 160-bit public key hash. */
  type PKH = nat

  /** A transaction output, `BRUTXO`. */
  datatype Outpoint = Outpoint(hash: Hash, n: nat)

  /** `BRScriptPKH`, left abstract: the public key hash a script pays to, if any. */
  type ScriptPKH = seq<Byte> -> Option<PKH>

  const UINT64: nat := 0x1_0000_0000_0000_0000

  /** The wallet.  A registered transaction is the same object in `allTx` and `transactions`, so
      `transactions` holds hashes and `allTx` the transactions with their current heights. */
  class Wallet {
    const pkhOf: ScriptPKH
    var balance: nat
    var totalSent: nat
    var totalReceived: nat
    var feePerKb: nat
    var balanceHist: seq<nat>
    var blockHeight: nat
    var utxos: seq<Outpoint>
    var transactions: seq<Hash>
    var internalChain: seq<PKH>
    var externalChain: seq<PKH>
    var allTx: map<Hash, Tx>
    var invalidTx: set<Hash>
    var pendingTx: set<Hash>
    var spentOutputs: set<Outpoint>
    var usedPKH: set<PKH>
    var allPKH: set<PKH>

    /** The registered transactions are known, and registered once. */
    predicate Valid()
      reads this
    {
      Indexed(allTx) && Registered(allTx, transactions)
    }
  }

  predicate Indexed(allTx: map<Hash, Tx>) {
    forall h :: h in allTx ==> allTx[h].txHash == h
  }

  predicate Distinct<T(==)>(s: seq<T>) {
    forall i, j :: 0 <= i < j < |s| ==> s[i] != s[j]
  }

  predicate Registered(allTx: map<Hash, Tx>, transactions: seq<Hash>) {
    Distinct(transactions) && forall h :: h in transactions ==> h in allTx
  }

  /** The registered transactions, in order. */
  function Listed(allTx: map<Hash, Tx>, transactions: seq<Hash>): seq<Tx>
    requires forall h :: h in transactions ==> h in allTx
  {
    seq(|transactions|, i requires 0 <= i < |transactions| => allTx[transactions[i]])
  }
}

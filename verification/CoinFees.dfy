/** Fees and smallest amounts of bitcoin/BRWallet.c as numbers, and what they mean for the transactions created. */
module CoinFees {
  import opened Wrappers
  import opened Bytes
  import opened Transactions
  import opened WalletState
  import opened WalletBalance
  import opened CoinSelection
  import opened CoinTheorems
  import Division

  // ----- the fee

  /** The fee covers the rate asked for and the relay minimum of one unit a byte; it is that minimum, or a multiple
      of 100 less than 100 above what the rate comes to. */
  lemma FeeIsAtRate(rate: nat, size: nat)
    ensures TxFee(rate, size) >= size * rate / 1000 && TxFee(rate, size) >= size
    ensures TxFee(rate, size) == size || (TxFee(rate, size) % 100 == 0 && TxFee(rate, size) < size * rate / 1000 + 100)
  {
  }

  /** It grows with the rate. */
  lemma FeeGrowsWithRate(low: nat, high: nat, size: nat)
    requires low <= high
    ensures TxFee(low, size) <= TxFee(high, size)
  {
    Division.Monotone(low, high, size);
    assert low * size == size * low && high * size == size * high;
    RoundingGrows(size * low, size * high);
  }

  /** The smallest amount worth sending is 546 up to the relay rate of 1000, and above it 546 times the rate over 1000,
      rounded up. */
  lemma MinAmountIsAtRate(rate: nat)
    ensures rate <= 1000 ==> MinAmount(rate) == 546
    ensures rate >= 1000 ==> (MinAmount(rate) - 1) * 1000 < 546 * rate <= MinAmount(rate) * 1000
  {
  }

  // ----- created transactions

  /** What a created transaction leaves to the network pays for its size, with room for a change output, at the rate
      asked for and at the relay rate, and goes beyond by less than 200 and, without change, the smallest amount. */
  lemma CreatedPays(p: Purse, change: seq<Byte>, tx: Tx)
    requires Conserves(p, change, tx) && Distinct(p.coins)
    ensures var left, size := InputSum(tx.inputs) - Sum(tx.outputs), VSize(TxWith(tx.inputs, p.outputs)) + 34;
            && left >= size * p.feePerKb / 1000 && left >= size
            && left < (if size > size * p.feePerKb / 1000 + 100 then size else size * p.feePerKb / 1000 + 100) + 100
                      + (if |tx.outputs| > |p.outputs| then 0 else MinAmount(p.feePerKb) + 1)
  {
    hide VSize, TxFee, MinAmount, Sum, InputSum, Conserves, IsCoinInput;
    CreatedConserves(p, change, tx);
    var fee: nat :| IsFeeOf(p, tx, fee);
    FeeIsAtRate(p.feePerKb, VSize(TxWith(tx.inputs, p.outputs)) + 34);
  }

  /** It is a version 1 transaction without a lock time, not signed yet, and none of its inputs can be replaced. */
  lemma CreatedIsFinal(p: Purse, change: seq<Byte>, tx: Tx)
    requires Conserves(p, change, tx)
    ensures tx.version == 1 && tx.lockTime == 0 && tx.blockHeight == TX_UNCONFIRMED
    ensures forall k :: 0 <= k < |tx.inputs| ==>
              tx.inputs[k].sequence == 0xffff_ffff && tx.inputs[k].signature.None? && tx.inputs[k].wit.None?
  {
    hide VSize, Settled, Stop;
    InputsAreFinal(p.allTx, p.coins[..Stop(p)]);
  }

  lemma {:induction false} InputsAreFinal(allTx: map<Hash, Tx>, coins: seq<Outpoint>)
    ensures forall k :: 0 <= k < |Inputs(allTx, coins)| ==>
              && Inputs(allTx, coins)[k].sequence == 0xffff_ffff
              && Inputs(allTx, coins)[k].signature.None? && Inputs(allTx, coins)[k].wit.None?
  {
    if coins != [] {
      InputsAreFinal(allTx, coins[..|coins| - 1]);
    }
  }

  // ----- where the selection stops

  /** With its inputs up to coin `i` the transaction is within 100000 bytes. */
  predicate Fits(p: Purse, i: nat)
    requires i <= |p.coins|
  {
    VSize(Draft(p, i)) + 34 <= 100000
  }

  /** What the first `i` coins hold beyond amount and fee. */
  function Surplus(p: Purse, i: nat): int
    requires i <= |p.coins|
  {
    Gathered(p, i) - Sum(p.outputs) - Fee(p, i)
  }

  /** The selection takes the fewest coins with which the amount is met exactly, or with enough left for change, or
      the transaction is too large; only then does it stop before the last. */
  lemma SelectionIsLeast(p: Purse)
    ensures forall j :: 0 < j < Stop(p) && Known(p.allTx, p.coins[j - 1]) ==>
              Fits(p, j) && (Surplus(p, j) < 0 || 0 < Surplus(p, j) < MinAmount(p.feePerKb))
    ensures var k := Stop(p);
            k < |p.coins| ==> k > 0 && Known(p.allTx, p.coins[k - 1])
                              && (!Fits(p, k) || Surplus(p, k) == 0 || Surplus(p, k) >= MinAmount(p.feePerKb))
  {
    hide VSize, Draft, Gathered, Sum, Fee, MinAmount, StopFrom;
    StopMeans(p, 0);
    forall j | 0 < j < Stop(p) && Known(p.allTx, p.coins[j - 1])
      ensures Fits(p, j) && (Surplus(p, j) < 0 || 0 < Surplus(p, j) < MinAmount(p.feePerKb))
    {
      assert !TooLarge(p, j) && !Enough(p, j);
    }
  }

  /** A second attempt is made only if the wallet holds the amount and the fee for all of its coins, at 148 bytes each. */
  lemma RetryNeedsFunds(p: Purse, fuel: nat)
    requires p.outputs != [] && Stop(p) > 0 && Known(p.allTx, p.coins[Stop(p) - 1]) && !Fits(p, Stop(p))
    ensures Attempted(p, fuel).Some? ==>
              p.walletBalance >= Sum(p.outputs) + TxFee(p.feePerKb, 10 + 148 * |p.coins| + 34 * (|p.outputs| + 1))
    ensures fuel > 0 && p.walletBalance >= Sum(p.outputs) + TxFee(p.feePerKb, 10 + 148 * |p.coins| + 34 * (|p.outputs| + 1)) ==>
              Attempted(p, fuel) == Attempted(p.(outputs := Smaller(p)), fuel - 1)
  {
    hide VSize, Draft, Gathered, Sum, Fee, Stop, TxFee, Smaller;
    assert |p.coins| * TX_INPUT_SIZE == 148 * |p.coins|;
  }

  /** It asks for what is missing less of the last output, if that stays above the smallest amount, and leaves the
      output out otherwise. */
  lemma RetryAsksForLess(p: Purse)
    requires p.outputs != [] && TooLarge(p, Stop(p))
    ensures var n, missing := |p.outputs| - 1, -Surplus(p, Stop(p) - 1);
            if p.outputs[n].amount > missing + MinAmount(p.feePerKb)
            then Smaller(p) == p.outputs[..n] + [TxOutput(p.outputs[n].amount - missing, p.outputs[n].script)]
            else Smaller(p) == p.outputs[..n]
  {
    hide TooLarge, Gathered, Sum, Fee, Stop, MinAmount;
  }
}

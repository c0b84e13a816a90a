/** Choosing inputs, fee and change for a new transaction, bitcoin/BRWallet.c.  Amounts are
    unbounded here; in the source they are 64 bits wide. */
module CoinSelection {
  import opened Wrappers
  import opened Bytes
  import opened Transactions
  import opened WalletState
  import opened WalletBalance
  import Division

  const MIN_FEE_PER_KB: nat := TX_FEE_PER_KB
  const TX_VERSION: nat := 1

  // ----- fees

  /** `_txFee`: the fee at a rate, rounded up to 100, but at least the relay minimum. */
  function TxFee(feePerKb: nat, size: nat): (r: nat)
    ensures r >= size
  {
    var standardFee := size * TX_FEE_PER_KB / 1000;
    var fee := (size * feePerKb / 1000 + 99) / 100 * 100;
    if fee > standardFee then fee else standardFee
  }

  lemma FeeGrows(feePerKb: nat, small: nat, large: nat)
    requires small <= large
    ensures TxFee(feePerKb, small) <= TxFee(feePerKb, large)
  {
    Division.Monotone(small, large, feePerKb);
    RoundingGrows(small * feePerKb, large * feePerKb);
  }

  lemma RoundingGrows(x: nat, y: nat)
    requires x <= y
    ensures (x / 1000 + 99) / 100 * 100 <= (y / 1000 + 99) / 100 * 100
  {
    assert x / 1000 <= y / 1000;
  }

  /** `BRWalletMinOutputAmountWithFeePerKb`: outputs below it cost more to spend than they hold. */
  function MinAmount(feePerKb: nat): (r: nat)
    ensures r >= TX_MIN_OUTPUT_AMOUNT > 0
  {
    var amount := (TX_MIN_OUTPUT_AMOUNT * feePerKb + MIN_FEE_PER_KB - 1) / MIN_FEE_PER_KB;
    if amount > TX_MIN_OUTPUT_AMOUNT then amount else TX_MIN_OUTPUT_AMOUNT
  }

  // ----- what the choice depends on

  /** The coins in the order they are tried, the wallet balance, the fee rate, and the outputs asked for. */
  datatype Purse = Purse(allTx: map<Hash, Tx>, coins: seq<Outpoint>, walletBalance: nat, feePerKb: nat, outputs: seq<TxOutput>)

  function Sum(outputs: seq<TxOutput>): nat {
    if outputs == [] then 0 else Sum(outputs[..|outputs| - 1]) + outputs[|outputs| - 1].amount
  }

  function InputSum(inputs: seq<TxInput>): nat {
    if inputs == [] then 0 else InputSum(inputs[..|inputs| - 1]) + inputs[|inputs| - 1].amount
  }

  /** The transaction of the coin is known and has that output. */
  predicate Known(allTx: map<Hash, Tx>, o: Outpoint) {
    o.hash in allTx && o.n < |allTx[o.hash].outputs|
  }

  function InputFor(allTx: map<Hash, Tx>, o: Outpoint): TxInput
    requires Known(allTx, o)
  {
    var output := allTx[o.hash].outputs[o.n];
    TxInput(o.hash, o.n, output.amount, Some(output.script), None, None, UINT32_MAX)
  }

  /** Unsigned inputs for the known coins. */
  function Inputs(allTx: map<Hash, Tx>, coins: seq<Outpoint>): seq<TxInput> {
    if coins == [] then []
    else
      var o := coins[|coins| - 1];
      Inputs(allTx, coins[..|coins| - 1]) + (if Known(allTx, o) then [InputFor(allTx, o)] else [])
  }

  function TxWith(inputs: seq<TxInput>, outputs: seq<TxOutput>): Tx {
    Tx(0, TX_VERSION, inputs, outputs, 0, TX_UNCONFIRMED, 0)
  }

  /** The transaction that spends the known ones of the first `i` coins, before change. */
  function Draft(p: Purse, i: nat): Tx
    requires i <= |p.coins|
  {
    TxWith(Inputs(p.allTx, p.coins[..i]), p.outputs)
  }

  function Gathered(p: Purse, i: nat): nat
    requires i <= |p.coins|
  {
    InputSum(Inputs(p.allTx, p.coins[..i]))
  }

  /** The fee with room for a change output. */
  function PlainFee(p: Purse, i: nat): nat
    requires i <= |p.coins|
  {
    TxFee(p.feePerKb, VSize(Draft(p, i)) + TX_OUTPUT_SIZE)
  }

  /** Once there is an input, the fee is raised to round what the wallet keeps down to a multiple of 100. */
  function Fee(p: Purse, i: nat): (r: nat)
    requires i <= |p.coins|
    ensures r >= PlainFee(p, i)
  {
    var fee, amount := PlainFee(p, i), Sum(p.outputs);
    if Inputs(p.allTx, p.coins[..i]) == [] || p.walletBalance <= amount + fee then fee
    else fee + (p.walletBalance - (amount + fee)) % 100
  }

  /** The i-th coin was used, and the transaction is then too large. */
  predicate TooLarge(p: Purse, i: nat)
    requires i <= |p.coins|
  {
    i > 0 && Known(p.allTx, p.coins[i - 1]) && VSize(Draft(p, i)) + TX_OUTPUT_SIZE > TX_MAX_SIZE
  }

  /** The i-th coin was used, and the amount is met exactly or with enough left for change. */
  predicate Enough(p: Purse, i: nat)
    requires i <= |p.coins|
  {
    && i > 0 && Known(p.allTx, p.coins[i - 1])
    && var need := Sum(p.outputs) + Fee(p, i);
       Gathered(p, i) == need || Gathered(p, i) >= need + MinAmount(p.feePerKb)
  }

  lemma SkippedCoin(p: Purse, i: nat)
    requires 0 < i <= |p.coins| && !Known(p.allTx, p.coins[i - 1])
    ensures Draft(p, i) == Draft(p, i - 1) && Gathered(p, i) == Gathered(p, i - 1) && Fee(p, i) == Fee(p, i - 1)
    ensures !TooLarge(p, i) && !Enough(p, i)
  {
    hide VSize;
    assert p.coins[..i][..i - 1] == p.coins[..i - 1];
  }

  lemma UsedCoin(p: Purse, i: nat)
    requires 0 < i <= |p.coins| && Known(p.allTx, p.coins[i - 1])
    ensures Draft(p, i).inputs == Draft(p, i - 1).inputs + [InputFor(p.allTx, p.coins[i - 1])]
    ensures Gathered(p, i) == Gathered(p, i - 1) + InputFor(p.allTx, p.coins[i - 1]).amount
  {
    assert p.coins[..i][..i - 1] == p.coins[..i - 1];
    var inputs := Inputs(p.allTx, p.coins[..i - 1]);
    assert (inputs + [InputFor(p.allTx, p.coins[i - 1])])[..|inputs|] == inputs;
  }

  // ----- the selection loop

  /** Where adding coins in order stops: at the first that makes the transaction too large or meets
      the amount, counted from the `i`-th. */
  function StopFrom(p: Purse, i: nat): (k: nat)
    requires i <= |p.coins|
    ensures i <= k <= |p.coins|
    decreases |p.coins| - i
  {
    if i == |p.coins| || TooLarge(p, i) || Enough(p, i) then i else StopFrom(p, i + 1)
  }

  function Stop(p: Purse): (k: nat)
    ensures k <= |p.coins|
  {
    StopFrom(p, 0)
  }

  lemma {:induction false} StopIsFirst(p: Purse, i: nat, k: nat)
    requires i <= k <= |p.coins| && (k == |p.coins| || TooLarge(p, k) || Enough(p, k))
    requires forall j :: i <= j < k ==> !TooLarge(p, j) && !Enough(p, j)
    ensures StopFrom(p, i) == k
    decreases k - i
  {
    hide TooLarge, Enough;
    if i < k {
      StopIsFirst(p, i + 1, k);
    }
  }

  /** Adds coins in order until the transaction is too large, or the amount is met, or none is
      left.  `gathered` and `fee` are those before the coin that made it too large. */
  method SelectCoins(p: Purse) returns (i: nat, inputs: seq<TxInput>, gathered: nat, fee: nat, tooLarge: bool)
    ensures i == Stop(p) && inputs == Draft(p, i).inputs
    ensures tooLarge <==> TooLarge(p, i)
    ensures tooLarge ==> gathered == Gathered(p, i - 1) && fee == Fee(p, i - 1)
                         && gathered < Sum(p.outputs) + fee + MinAmount(p.feePerKb)
    ensures !tooLarge ==> gathered == Gathered(p, i) && fee == Fee(p, i)
  {
    hide VSize, TxFee, MinAmount, Sum, Draft, Gathered, Fee, PlainFee, StopFrom;
    var minAmount, amount := MinAmount(p.feePerKb), Sum(p.outputs);
    i, gathered, tooLarge, inputs := 0, 0, false, [];
    fee := TxFee(p.feePerKb, VSize(TxWith([], p.outputs)) + TX_OUTPUT_SIZE);
    NoCoins(p);
    while i < |p.coins|
      invariant i <= |p.coins| && inputs == Draft(p, i).inputs && !TooLarge(p, i)
      invariant gathered == Gathered(p, i) && fee == Fee(p, i)
      invariant gathered < amount + fee + minAmount
      invariant forall k :: 0 <= k <= i ==> !TooLarge(p, k) && !Enough(p, k)
    {
      var o := p.coins[i];
      i := i + 1;
      if Known(p.allTx, o) {
        UsedCoin(p, i);
        FeeUnfold(p, i);
        inputs := inputs + [InputFor(p.allTx, o)];
        var size := VSize(TxWith(inputs, p.outputs));
        if size + TX_OUTPUT_SIZE > TX_MAX_SIZE {
          tooLarge := true;
          StopIsFirst(p, 0, i);
          return;
        }
        gathered := gathered + p.allTx[o.hash].outputs[o.n].amount;
        fee := TxFee(p.feePerKb, size + TX_OUTPUT_SIZE);
        if p.walletBalance > amount + fee {
          fee := fee + (p.walletBalance - (amount + fee)) % 100;
        }
        if gathered == amount + fee || gathered >= amount + fee + minAmount {
          StopIsFirst(p, 0, i);
          return;
        }
      } else {
        SkippedCoin(p, i);
      }
    }
    StopIsFirst(p, 0, i);
  }

  lemma NoCoins(p: Purse)
    ensures Draft(p, 0) == TxWith([], p.outputs) && Gathered(p, 0) == 0 && Fee(p, 0) == PlainFee(p, 0)
    ensures PlainFee(p, 0) == TxFee(p.feePerKb, VSize(Draft(p, 0)) + TX_OUTPUT_SIZE)
    ensures MinAmount(p.feePerKb) > 0
  {
    hide VSize;
    assert p.coins[..0] == [];
  }

  lemma FeeUnfold(p: Purse, i: nat)
    requires 0 < i <= |p.coins| && Known(p.allTx, p.coins[i - 1])
    ensures Draft(p, i) == TxWith(Draft(p, i).inputs, p.outputs)
    ensures var fee, amount := TxFee(p.feePerKb, VSize(Draft(p, i)) + TX_OUTPUT_SIZE), Sum(p.outputs);
            Fee(p, i) == if p.walletBalance > amount + fee then fee + (p.walletBalance - (amount + fee)) % 100 else fee
  {
    hide VSize;
  }

  // ----- shuffling

  /** `BRTransactionShuffleOutputs`, whatever the random numbers are. */
  method Shuffle(outputs: seq<TxOutput>) returns (r: seq<TxOutput>)
    ensures multiset(r) == multiset(outputs)
  {
    r := outputs;
    var i := 0;
    while i + 1 < |r|
      invariant |r| == |outputs| && multiset(r) == multiset(outputs)
      decreases |r| - i
    {
      var j: nat :| i <= j < |r|;
      if j != i {
        r := r[i := r[j]][j := r[i]];
      }
      i := i + 1;
    }
  }

  // ----- creating a transaction

  /** What a created transaction is, for the purse it was made from: it spends the coins up to where
      the selection stops, has all outputs asked for and at most one more, which goes to the change
      script, and its fee is accounted for to the unit. */
  ghost predicate Conserves(p: Purse, change: seq<Byte>, tx: Tx) {
    && tx == TxWith(Draft(p, Stop(p)).inputs, tx.outputs)
    && Settled(p, change, tx, Fee(p, Stop(p)))
  }

  ghost predicate Settled(p: Purse, change: seq<Byte>, tx: Tx, fee: nat) {
    var amount, min := Sum(p.outputs), MinAmount(p.feePerKb);
    var rest := InputSum(tx.inputs) - amount - fee;
    && rest >= 0
    && if rest > min
       then multiset(tx.outputs) == multiset(p.outputs) + multiset{TxOutput(rest, change)}
       else tx.outputs == p.outputs
  }

  /** The outputs of a smaller attempt: the last one adjusted, or dropped. */
  function Adjusted(outputs: seq<TxOutput>, less: int): seq<TxOutput>
    requires outputs != [] && outputs[|outputs| - 1].amount >= less
  {
    var last := outputs[|outputs| - 1];
    outputs[|outputs| - 1 := last.(amount := last.amount - less)]
  }

  /** `smaller` can arise from `outputs` by dropping last outputs and changing the amount of the last one left. */
  ghost predicate IsAttempt(outputs: seq<TxOutput>, smaller: seq<TxOutput>) {
    && smaller != [] && |smaller| <= |outputs|
    && (forall k :: 0 <= k < |smaller| - 1 ==> smaller[k] == outputs[k])
    && smaller[|smaller| - 1].script == outputs[|smaller| - 1].script
  }

  /** A smaller attempt is worthwhile: the balance covers amount and fee for all coins. */
  predicate CanAfford(p: Purse) {
    p.walletBalance >= Sum(p.outputs) + TxFee(p.feePerKb, 10 + |p.coins| * TX_INPUT_SIZE + (|p.outputs| + 1) * TX_OUTPUT_SIZE)
  }

  /** The outputs of the attempt after one that got too large: the last one is adjusted by what is
      missing if it stays above the smallest amount, and dropped otherwise. */
  function Smaller(p: Purse): (r: seq<TxOutput>)
    requires p.outputs != [] && TooLarge(p, Stop(p))
    ensures |r| <= |p.outputs|
  {
    var n, less := |p.outputs|, Sum(p.outputs) + Fee(p, Stop(p) - 1) - Gathered(p, Stop(p) - 1);
    if p.outputs[n - 1].amount > less + MinAmount(p.feePerKb) then Adjusted(p.outputs, less) else p.outputs[..n - 1]
  }

  /** The outputs of the attempt that makes a transaction, if one of the first `fuel + 1` does. */
  function Attempted(p: Purse, fuel: nat): Option<seq<TxOutput>>
    decreases fuel
  {
    if p.outputs == [] then None
    else if TooLarge(p, Stop(p)) then
      if fuel == 0 || !CanAfford(p) then None else Attempted(p.(outputs := Smaller(p)), fuel - 1)
    else if Gathered(p, Stop(p)) < Sum(p.outputs) + Fee(p, Stop(p)) then None
    else Some(p.outputs)
  }

  /** `BRWalletCreateTxForOutputsWithFeePerKb`.  A transaction that gets too large is tried again
      with the last output adjusted or dropped; `fuel` bounds these retries.  An attempt without
      outputs fails. */
  method CreateTx(p: Purse, change: seq<Byte>, fuel: nat) returns (r: Option<Tx>)
    requires p.outputs != []
    ensures r.Some? <==> Attempted(p, fuel).Some?
    ensures r.Some? ==> Conserves(p.(outputs := Attempted(p, fuel).value), change, r.value)
    decreases fuel
  {
    hide VSize, TxFee, MinAmount, Draft, Gathered, Fee, PlainFee, Sum, InputSum, TooLarge, Enough, Stop;
    r := None;
    var amount, minAmount := Sum(p.outputs), MinAmount(p.feePerKb);
    var i, inputs, gathered, fee, tooLarge := SelectCoins(p);
    if tooLarge {
      var n := |p.outputs|;
      if p.walletBalance < amount + TxFee(p.feePerKb, 10 + |p.coins| * TX_INPUT_SIZE + (n + 1) * TX_OUTPUT_SIZE) || fuel == 0 {
        return;
      }
      if p.outputs[n - 1].amount > amount + fee + minAmount - gathered {
        r := CreateTx(p.(outputs := Adjusted(p.outputs, amount + fee - gathered)), change, fuel - 1);
      } else if n > 1 {
        r := CreateTx(p.(outputs := p.outputs[..n - 1]), change, fuel - 1);
      }
    } else {
      GatheredUnfold(p, i);
      if gathered < amount + fee {
        return;
      }
      var tx := TxWith(inputs, p.outputs);
      if gathered - (amount + fee) > minAmount {
        var outputs := Shuffle(p.outputs + [TxOutput(gathered - (amount + fee), change)]);
        tx := TxWith(inputs, outputs);
      }
      assert Settled(p, change, tx, fee);
      assert p.(outputs := p.outputs) == p;
      r := Some(tx);
    }
  }

  /** A larger bound on the retries never changes the outcome of a success. */
  lemma {:induction false} FuelIsEnough(p: Purse, fuel: nat, more: nat)
    requires fuel <= more && Attempted(p, fuel).Some?
    ensures Attempted(p, more) == Attempted(p, fuel)
    decreases fuel
  {
    hide TooLarge, Stop, CanAfford, Smaller, Gathered, Sum, Fee;
    if p.outputs != [] && TooLarge(p, Stop(p)) {
      FuelIsEnough(p.(outputs := Smaller(p)), fuel - 1, more - 1);
    }
  }

  /** The attempt that succeeds asks for a part of the original outputs, where only the amount of the
      last one may differ. */
  lemma {:induction false} AttemptIsPart(p: Purse, fuel: nat)
    requires Attempted(p, fuel).Some?
    ensures IsAttempt(p.outputs, Attempted(p, fuel).value)
    decreases fuel
  {
    hide TooLarge, Stop, CanAfford, Gathered, Sum, Fee, Smaller;
    if TooLarge(p, Stop(p)) {
      AttemptIsPart(p.(outputs := Smaller(p)), fuel - 1);
      SmallerIsPart(p);
      AttemptLater(p.outputs, Smaller(p), Attempted(p, fuel).value);
    }
  }

  lemma SmallerIsPart(p: Purse)
    requires p.outputs != [] && TooLarge(p, Stop(p))
    ensures Smaller(p) == p.outputs[..|p.outputs| - 1] || IsAttempt(p.outputs, Smaller(p))
  {
    hide TooLarge, Stop, Gathered, Sum, Fee, MinAmount;
  }

  /** As long as nothing gets too large, the outputs are those asked for, and a transaction is made
      exactly when some prefix of the coins is enough or all of them cover amount and fee. */
  lemma FirstAttempt(p: Purse, fuel: nat)
    requires p.outputs != [] && forall k :: 0 < k <= |p.coins| ==> !TooLarge(p, k)
    ensures Attempted(p, fuel) == if CanCreate(p) then Some(p.outputs) else None
  {
    hide TooLarge, Enough, Gathered, Sum, Fee;
    StopMeans(p, 0);
    StartIsNeither(p);
    var k := Stop(p);
    if Enough(p, k) {
      EnoughCovers(p, k);
    }
  }

  /** Creating a transaction succeeds exactly when this holds, as long as nothing gets too large. */
  predicate CanCreate(p: Purse) {
    || (exists k :: 0 < k <= |p.coins| && Enough(p, k))
    || Gathered(p, |p.coins|) >= Sum(p.outputs) + Fee(p, |p.coins|)
  }

  lemma {:induction false} StopMeans(p: Purse, i: nat)
    requires i <= |p.coins|
    ensures var k := StopFrom(p, i);
            && (k == |p.coins| || TooLarge(p, k) || Enough(p, k))
            && forall j :: i <= j < k ==> !TooLarge(p, j) && !Enough(p, j)
    decreases |p.coins| - i
  {
    hide TooLarge, Enough;
    if i != |p.coins| && !TooLarge(p, i) && !Enough(p, i) {
      StopMeans(p, i + 1);
    }
  }

  lemma StartIsNeither(p: Purse)
    ensures !TooLarge(p, 0) && !Enough(p, 0)
  {
  }

  lemma EnoughCovers(p: Purse, k: nat)
    requires k <= |p.coins| && Enough(p, k)
    ensures Gathered(p, k) >= Sum(p.outputs) + Fee(p, k)
  {
  }

  lemma AttemptLater(outputs: seq<TxOutput>, mid: seq<TxOutput>, frame: seq<TxOutput>)
    requires outputs != [] && (mid == outputs[..|outputs| - 1] || IsAttempt(outputs, mid)) && IsAttempt(mid, frame)
    ensures IsAttempt(outputs, frame)
  {
  }

  lemma GatheredUnfold(p: Purse, i: nat)
    requires i <= |p.coins|
    ensures Gathered(p, i) == InputSum(Draft(p, i).inputs)
  {
  }
}

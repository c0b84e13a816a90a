/** What coin selection promises: created transactions conserve value, and the maximum amount that
    bitcoin/BRWallet.c advertises can be spent. */
module CoinTheorems {
  import opened Wrappers
  import opened Bytes
  import opened Transactions
  import opened WalletState
  import opened WalletBalance
  import opened BalanceUpdate
  import opened BalanceTheorems
  import opened CoinSelection

  // ----- conservation

  lemma SumAppend(outputs: seq<TxOutput>, o: TxOutput)
    ensures Sum(outputs + [o]) == Sum(outputs) + o.amount
  {
    assert (outputs + [o])[..|outputs|] == outputs;
  }

  lemma {:induction false} SumRemove(outputs: seq<TxOutput>, j: nat)
    requires j < |outputs|
    ensures Sum(outputs) == Sum(outputs[..j] + outputs[j + 1..]) + outputs[j].amount
  {
    hide Sum;
    var n := |outputs| - 1;
    assert outputs == outputs[..n] + [outputs[n]];
    SumAppend(outputs[..n], outputs[n]);
    if j == n {
      assert outputs[..j] + outputs[j + 1..] == outputs[..n];
    } else {
      SumRemove(outputs[..n], j);
      var rest := outputs[..n][..j] + outputs[..n][j + 1..];
      assert outputs[..j] + outputs[j + 1..] == rest + [outputs[n]];
      SumAppend(rest, outputs[n]);
    }
  }

  lemma MultisetRemove(outputs: seq<TxOutput>, j: nat)
    requires j < |outputs|
    ensures multiset(outputs) == multiset(outputs[..j] + outputs[j + 1..]) + multiset{outputs[j]}
  {
    assert outputs == outputs[..j] + [outputs[j]] + outputs[j + 1..];
  }

  /** The order of outputs does not matter for their sum. */
  lemma {:induction false} SumOfShuffled(a: seq<TxOutput>, b: seq<TxOutput>)
    requires multiset(a) == multiset(b)
    ensures Sum(a) == Sum(b)
    decreases |a|
  {
    if a == [] {
      assert |multiset(b)| == 0;
    } else {
      hide Sum;
      var n := |a| - 1;
      assert a[n] in multiset(a);
      var j :| 0 <= j < |b| && b[j] == a[n];
      SumRemove(a, n);
      SumRemove(b, j);
      MultisetRemove(a, n);
      MultisetRemove(b, j);
      assert a[..n] + a[n + 1..] == a[..n];
      assert multiset(a[..n]) == multiset(a) - multiset{a[n]} == multiset(b[..j] + b[j + 1..]);
      SumOfShuffled(a[..n], b[..j] + b[j + 1..]);
    }
  }

  lemma {:induction false} InputsAreCoins(allTx: map<Hash, Tx>, coins: seq<Outpoint>)
    requires Distinct(coins)
    ensures forall k :: 0 <= k < |Inputs(allTx, coins)| ==> IsCoinInput(allTx, coins, Inputs(allTx, coins)[k])
    ensures forall j, k :: 0 <= j < k < |Inputs(allTx, coins)| ==>
              Spends(Inputs(allTx, coins)[j]) != Spends(Inputs(allTx, coins)[k])
  {
    if coins != [] {
      var init := coins[..|coins| - 1];
      InputsAreCoins(allTx, init);
      assert forall o :: o in init ==> o in coins && o != coins[|coins| - 1];
    }
  }

  /** The input spends a coin, for the amount of the output it stands for. */
  predicate IsCoinInput(allTx: map<Hash, Tx>, coins: seq<Outpoint>, i: TxInput) {
    && Spends(i) in coins && Known(allTx, Spends(i))
    && i.amount == allTx[i.txHash].outputs[i.index].amount
    && i.script == Some(allTx[i.txHash].outputs[i.index].script)
  }

  /** A created transaction spends distinct coins of the wallet for what they are worth, and pays
      all outputs asked for.  What it leaves to the network is exactly the fee if there is change,
      which is then above the smallest economical amount, and otherwise at most that amount more
      than the fee.  The fee is such that, if the wallet holds amount and fee, its balance less both is
      a multiple of 100; with change that is what the wallet keeps. */
  lemma CreatedConserves(p: Purse, change: seq<Byte>, tx: Tx)
    requires Conserves(p, change, tx) && Distinct(p.coins)
    ensures forall k :: 0 <= k < |tx.inputs| ==> IsCoinInput(p.allTx, p.coins, tx.inputs[k])
    ensures forall j, k :: 0 <= j < k < |tx.inputs| ==> Spends(tx.inputs[j]) != Spends(tx.inputs[k])
    ensures multiset(p.outputs) <= multiset(tx.outputs) && |tx.outputs| <= |p.outputs| + 1
    ensures exists fee :: IsFeeOf(p, tx, fee)
  {
    hide Fee, Draft, Settled, IsFeeOf, IsCoinInput, Stop;
    var i, fee := Stop(p), Fee(p, Stop(p));
    DraftInputs(p, i);
    InputsAreCoins(p.allTx, p.coins[..i]);
    forall k | 0 <= k < |tx.inputs| ensures IsCoinInput(p.allTx, p.coins, tx.inputs[k]) {
      MoreCoins(p.allTx, p.coins, i, tx.inputs[k]);
    }
    OutputsAccounted(p, change, tx, fee);
    FeeIs(p, i, tx, fee);
  }

  lemma DraftInputs(p: Purse, i: nat)
    requires i <= |p.coins|
    ensures Draft(p, i).inputs == Inputs(p.allTx, p.coins[..i])
  {
  }

  lemma MoreCoins(allTx: map<Hash, Tx>, coins: seq<Outpoint>, i: nat, input: TxInput)
    requires i <= |coins| && IsCoinInput(allTx, coins[..i], input)
    ensures IsCoinInput(allTx, coins, input)
  {
  }

  lemma OutputsAccounted(p: Purse, change: seq<Byte>, tx: Tx, fee: nat)
    requires Settled(p, change, tx, fee)
    ensures var rest := InputSum(tx.inputs) - Sum(p.outputs) - fee;
            && rest >= 0
            && if rest > MinAmount(p.feePerKb) then |tx.outputs| == |p.outputs| + 1 && Sum(tx.outputs) == Sum(p.outputs) + rest
               else tx.outputs == p.outputs
    ensures multiset(p.outputs) <= multiset(tx.outputs) && |tx.outputs| <= |p.outputs| + 1
  {
    hide Sum, InputSum, MinAmount;
    var rest := InputSum(tx.inputs) - Sum(p.outputs) - fee;
    if rest > MinAmount(p.feePerKb) {
      var all := p.outputs + [TxOutput(rest, change)];
      assert multiset(tx.outputs) == multiset(all);
      SumOfShuffled(tx.outputs, all);
      SumAppend(p.outputs, TxOutput(rest, change));
      assert |multiset(tx.outputs)| == |multiset(all)|;
    }
  }

  /** `fee` accounts for the transaction. */
  ghost predicate IsFeeOf(p: Purse, tx: Tx, fee: nat) {
    var left, plain := InputSum(tx.inputs) - Sum(tx.outputs), TxFee(p.feePerKb, VSize(TxWith(tx.inputs, p.outputs)) + TX_OUTPUT_SIZE);
    && plain <= fee < plain + 100
    && (if |tx.outputs| > |p.outputs|
        then left == fee && Sum(tx.outputs) - Sum(p.outputs) > MinAmount(p.feePerKb)
        else fee <= left <= fee + MinAmount(p.feePerKb))
    && (tx.inputs != [] && p.walletBalance >= Sum(p.outputs) + plain ==>
          p.walletBalance >= Sum(p.outputs) + fee && (p.walletBalance - Sum(p.outputs) - fee) % 100 == 0)
  }

  lemma FeeIs(p: Purse, i: nat, tx: Tx, fee: nat)
    requires i <= |p.coins| && fee == Fee(p, i) && tx.inputs == Draft(p, i).inputs
    requires InputSum(tx.inputs) >= Sum(p.outputs) + fee
    requires var rest := InputSum(tx.inputs) - Sum(p.outputs) - fee;
             if rest > MinAmount(p.feePerKb) then |tx.outputs| == |p.outputs| + 1 && Sum(tx.outputs) == Sum(p.outputs) + rest
             else tx.outputs == p.outputs
    ensures IsFeeOf(p, tx, fee)
  {
    hide TxFee, MinAmount, VSize, Sum, InputSum;
    var plain, amount := PlainFee(p, i), Sum(p.outputs);
    assert plain == TxFee(p.feePerKb, VSize(TxWith(tx.inputs, p.outputs)) + TX_OUTPUT_SIZE);
    if tx.inputs != [] && p.walletBalance > amount + plain {
      RoundedDown(p.walletBalance - (amount + plain));
    }
  }

  lemma RoundedDown(x: nat)
    ensures 0 <= x % 100 <= x && (x - x % 100) % 100 == 0
  {
  }

  // ----- attempts after one that got too large

  /** A retry asks for more than the attempt before exactly when it adjusts the last output and the
      coins gathered before the one too many already cover the amount with the fee. */
  lemma RetryRaises(p: Purse)
    requires p.outputs != [] && TooLarge(p, Stop(p))
    ensures var k, n := Stop(p) - 1, |p.outputs|;
            var missing := Sum(p.outputs) + Fee(p, k) - Gathered(p, k);
            Sum(Smaller(p)) > Sum(p.outputs)
            <==> missing < 0 && p.outputs[n - 1].amount > missing + MinAmount(p.feePerKb)
  {
    hide TooLarge, Stop, Fee, Gathered, MinAmount;
    var n := |p.outputs|;
    assert Smaller(p) == p.outputs[..n - 1] || Smaller(p)[..n - 1] == p.outputs[..n - 1];
  }

  function RaisedScript(): (s: seq<Byte>) ensures |s| == 99700 { seq(99700, i => 0x76) }

  function RaisedOutputs(amount: nat): seq<TxOutput> { [TxOutput(amount, RaisedScript())] }

  /** Two coins for one large output: with both inputs the transaction gets too large, the first coin
      alone is worth 300 more than amount and fee, which is too little for change. */
  function RaisedPurse(amount: nat): Purse {
    Purse(map[1 := Tx(1, TX_VERSION, [], [TxOutput(1100300, [0x76]), TxOutput(1000000, [0x76])], 0, TX_UNCONFIRMED, 0)],
          [Outpoint(1, 0), Outpoint(1, 1)], 2100300, 1000, RaisedOutputs(amount))
  }

  /** The retry pays 300 more than was asked for. */
  lemma RaisedExample(fuel: nat)
    requires fuel > 0
    ensures Sum(RaisedPurse(1000000).outputs) == 1000000
    ensures Attempted(RaisedPurse(1000000), fuel) == Some(RaisedOutputs(1000300))
  {
    var p, q := RaisedPurse(1000000), RaisedPurse(1000300);
    hide RaisedPurse, RaisedOutputs, TooLarge, Stop, Smaller, CanAfford, Gathered, Fee, Sum;
    RaisedFirst(p);
    RaisedSecond(q);
  }

  /** The first attempt gets too large. */
  lemma RaisedFirst(p: Purse)
    requires p == RaisedPurse(1000000)
    ensures p.outputs != [] && TooLarge(p, Stop(p)) && CanAfford(p) && Sum(p.outputs) == 1000000
    ensures p.(outputs := Smaller(p)) == RaisedPurse(1000300)
  {
    hide VSize, TxFee, MinAmount, Fee, Gathered, Draft, RaisedScript, Sum;
    RaisedNumbers(1000000);
    StopIsFirst(p, 0, 2);
  }

  /** The second takes all the first coin has to give. */
  lemma RaisedSecond(q: Purse)
    requires q == RaisedPurse(1000300)
    ensures q.outputs == RaisedOutputs(1000300) != []
    ensures !TooLarge(q, Stop(q)) && Gathered(q, Stop(q)) >= Sum(q.outputs) + Fee(q, Stop(q))
  {
    hide VSize, TxFee, MinAmount, Fee, Gathered, Draft, RaisedScript, Sum;
    RaisedNumbers(1000300);
    StopIsFirst(q, 0, 1);
  }

  /** Sizes, sums and fees of the example. */
  lemma RaisedNumbers(amount: nat)
    requires amount == 1000000 || amount == 1000300
    ensures var p := RaisedPurse(amount);
            && Sum(p.outputs) == amount && MinAmount(1000) == 546
            && VSize(Draft(p, 1)) == 99871 && VSize(Draft(p, 2)) == 100019
            && Fee(p, 1) == 100000 && Gathered(p, 1) == 1100300
            && TxFee(1000, 10 + 2 * TX_INPUT_SIZE + 2 * TX_OUTPUT_SIZE) == 400
  {
    hide RaisedScript, Inputs, InputSum, Sum, InputsSize, WitnessesSize, OutputsSize;
    var p := RaisedPurse(amount);
    RaisedInputs(p, amount);
    OneOutputSize(p.outputs[0]);
    LegacySize(Draft(p, 1));
    LegacySize(Draft(p, 2));
    RaisedFees();
  }

  lemma RaisedFees()
    ensures MinAmount(1000) == 546 && TxFee(1000, 99905) == 100000
    ensures TxFee(1000, 10 + 2 * TX_INPUT_SIZE + 2 * TX_OUTPUT_SIZE) == 400
  {
  }

  lemma OneOutputSize(o: TxOutput)
    ensures Sum([o]) == o.amount && OutputsSize([o]) == OutputSize(o)
  {
    assert [o][..0] == [];
  }

  /** The inputs with one coin and with both. */
  lemma RaisedInputs(p: Purse, amount: nat)
    requires p == RaisedPurse(amount)
    ensures Gathered(p, 1) == 1100300 && Inputs(p.allTx, p.coins[..1]) == Draft(p, 1).inputs
    ensures |Draft(p, 1).inputs| == 1 && AreLegacy(Draft(p, 1).inputs)
    ensures |Draft(p, 2).inputs| == 2 && AreLegacy(Draft(p, 2).inputs)
  {
    hide RaisedScript, Inputs, InputSum;
    NoCoins(p);
    assert Draft(p, 0).inputs == [];
    UsedCoin(p, 1);
    UsedCoin(p, 2);
    assert Draft(p, 1).inputs == [InputFor(p.allTx, p.coins[0])];
    assert Draft(p, 2).inputs == [InputFor(p.allTx, p.coins[0]), InputFor(p.allTx, p.coins[1])];
  }

  /** Inputs not signed yet that spend no witness program. */
  predicate AreLegacy(s: seq<TxInput>) {
    forall k :: 0 <= k < |s| ==> !IsSignedInput(s[k]) && !IsWitnessProgram(s[k])
  }

  lemma {:induction false} LegacySizes(s: seq<TxInput>)
    requires AreLegacy(s)
    ensures InputsSize(s) == |s| * TX_INPUT_SIZE && WitnessesSize(s) == 0
  {
    if s != [] {
      LegacySizes(s[..|s| - 1]);
    }
  }

  lemma LegacySize(tx: Tx)
    requires AreLegacy(tx.inputs)
    ensures VSize(tx) == 8 + VarIntSize(|tx.inputs|) + VarIntSize(|tx.outputs|) + |tx.inputs| * TX_INPUT_SIZE + OutputsSize(tx.outputs)
  {
    LegacySizes(tx.inputs);
  }

  // ----- sizes

  predicate IsWitnessCoin(allTx: map<Hash, Tx>, o: Outpoint) {
    Known(allTx, o) && var s := allTx[o.hash].outputs[o.n].script; |s| > 0 && s[0] == 0
  }

  /** The numbers of legacy and of witness inputs. */
  function LegacyCount(allTx: map<Hash, Tx>, coins: seq<Outpoint>): nat {
    if coins == [] then 0
    else
      var o := coins[|coins| - 1];
      LegacyCount(allTx, coins[..|coins| - 1]) + (if Known(allTx, o) && !IsWitnessCoin(allTx, o) then 1 else 0)
  }

  function WitnessCount(allTx: map<Hash, Tx>, coins: seq<Outpoint>): nat {
    if coins == [] then 0
    else
      var o := coins[|coins| - 1];
      WitnessCount(allTx, coins[..|coins| - 1]) + (if IsWitnessCoin(allTx, o) then 1 else 0)
  }

  lemma {:induction false} InputSizes(allTx: map<Hash, Tx>, coins: seq<Outpoint>)
    ensures var a, b, s := LegacyCount(allTx, coins), WitnessCount(allTx, coins), Inputs(allTx, coins);
            InputsSize(s) == TX_INPUT_SIZE * a && WitnessesSize(s) == TX_INPUT_SIZE * b && |s| == a + b
  {
    if coins != [] {
      var init, o := coins[..|coins| - 1], coins[|coins| - 1];
      InputSizes(allTx, init);
      if Known(allTx, o) {
        assert (Inputs(allTx, init) + [InputFor(allTx, o)])[..|Inputs(allTx, init)|] == Inputs(allTx, init);
      } else {
        assert Inputs(allTx, coins) == Inputs(allTx, init);
      }
    }
  }

  /** The size estimate for `a` legacy and `b` witness inputs with outputs of `size` bytes in all. */
  function SizeFor(a: nat, b: nat, count: nat, size: nat): nat {
    var base := 8 + VarIntSize(a + b) + VarIntSize(count) + TX_INPUT_SIZE * a + size;
    (base * 4 + (if b > 0 then TX_INPUT_SIZE * b + 2 + (a + b) else 0) + 3) / 4
  }

  lemma DraftSize(p: Purse, i: nat)
    requires i <= |p.coins|
    ensures var a, b := LegacyCount(p.allTx, p.coins[..i]), WitnessCount(p.allTx, p.coins[..i]);
            VSize(Draft(p, i)) == SizeFor(a, b, |p.outputs|, OutputsSize(p.outputs))
  {
    InputSizes(p.allTx, p.coins[..i]);
  }

  lemma {:induction false} CountsGrow(allTx: map<Hash, Tx>, coins: seq<Outpoint>, i: nat)
    requires i <= |coins|
    ensures LegacyCount(allTx, coins[..i]) <= LegacyCount(allTx, coins)
    ensures WitnessCount(allTx, coins[..i]) <= WitnessCount(allTx, coins)
  {
    if i < |coins| {
      CountsGrow(allTx, coins[..|coins| - 1], i);
      assert coins[..|coins| - 1][..i] == coins[..i];
    } else {
      assert coins[..i] == coins;
    }
  }

  lemma SizeGrows(a: nat, b: nat, a': nat, b': nat, count: nat, size: nat)
    requires a <= a' && b <= b'
    ensures SizeFor(a, b, count, size) <= SizeFor(a', b', count, size)
  {
  }

  /** With more coins a draft only gets larger. */
  lemma DraftGrows(p: Purse, i: nat)
    requires i <= |p.coins|
    ensures VSize(Draft(p, i)) <= VSize(Draft(p, |p.coins|))
  {
    hide VSize, Draft, SizeFor;
    assert p.coins[..|p.coins|] == p.coins;
    DraftSize(p, i);
    DraftSize(p, |p.coins|);
    CountsGrow(p.allTx, p.coins, i);
    SizeGrows(LegacyCount(p.allTx, p.coins[..i]), WitnessCount(p.allTx, p.coins[..i]),
              LegacyCount(p.allTx, p.coins), WitnessCount(p.allTx, p.coins), |p.outputs|, OutputsSize(p.outputs));
  }

  // ----- the advertised maximum

  const P2PKH_SCRIPT_SIZE: nat := 25

  /** The size from which `BRWalletMaxOutputAmountWithFeePerKb` computes the fee. */
  function EstimatedSize(n: nat): nat {
    8 + VarIntSize(n) + TX_INPUT_SIZE * n + VarIntSize(2) + TX_OUTPUT_SIZE * 2
  }

  function Maximum(p: Purse): nat {
    var total, fee := InputSum(Inputs(p.allTx, p.coins)), TxFee(p.feePerKb, EstimatedSize(|Inputs(p.allTx, p.coins)|));
    if total > fee then total - fee else 0
  }

  /** `BRWalletMaxOutputAmountWithFeePerKb`, which walks the coins from the end. */
  method MaxOutputAmount(p: Purse) returns (r: nat)
    ensures r == Maximum(p)
  {
    hide TxFee;
    var amount, inCount, i := 0, 0, |p.coins|;
    assert p.coins[..i] == p.coins;
    while i > 0
      invariant 0 <= i <= |p.coins|
      invariant amount + InputSum(Inputs(p.allTx, p.coins[..i])) == InputSum(Inputs(p.allTx, p.coins))
      invariant inCount + |Inputs(p.allTx, p.coins[..i])| == |Inputs(p.allTx, p.coins)|
    {
      var o := p.coins[i - 1];
      if Known(p.allTx, o) {
        UsedCoin(p, i);
        inCount := inCount + 1;
        amount := amount + p.allTx[o.hash].outputs[o.n].amount;
      } else {
        SkippedCoin(p, i);
      }
      i := i - 1;
    }
    assert p.coins[..0] == [];
    var fee := TxFee(p.feePerKb, 8 + VarIntSize(inCount) + TX_INPUT_SIZE * inCount + VarIntSize(2) + TX_OUTPUT_SIZE * 2);
    r := if amount > fee then amount - fee else 0;
  }

  /** With one 25-byte output script, a transaction of all coins and a change output stays within
      the estimate if and only if there are no witness inputs, or enough of them to make up for
      the byte that each legacy input then adds to the witness. */
  lemma EstimateSuffices(a: nat, b: nat)
    ensures SizeFor(a, b, 1, 8 + 1 + P2PKH_SCRIPT_SIZE) + TX_OUTPUT_SIZE <= EstimatedSize(a + b)
       <==> b == 0 || a + 2 <= 443 * b
  {
    var base := 8 + VarIntSize(a + b) + 1 + TX_INPUT_SIZE * a + 34;
    if b > 0 {
      assert SizeFor(a, b, 1, 34) == (base * 4 + (149 * b + a + 2) + 3) / 4;
      assert EstimatedSize(a + b) == base + 148 * b + 34;
    }
  }

  /** If the wallet balance is the worth of its coins, and the estimate covers the real size, the
      maximum can be spent: nothing gets too large and the funds suffice. */
  lemma MaximumIsSpendable(p: Purse, o: TxOutput)
    requires p.outputs == [o] && |o.script| == P2PKH_SCRIPT_SIZE
    requires o.amount == Maximum(p) > 0
    requires p.walletBalance == InputSum(Inputs(p.allTx, p.coins))
    requires VSize(Draft(p, |p.coins|)) + TX_OUTPUT_SIZE <= TX_MAX_SIZE
    requires var a, b := LegacyCount(p.allTx, p.coins), WitnessCount(p.allTx, p.coins); b == 0 || a + 2 <= 443 * b
    ensures (forall k :: 0 < k <= |p.coins| ==> !TooLarge(p, k)) && CanCreate(p)
  {
    hide VSize, TxFee, SizeFor, EstimatedSize, Enough;
    var n := |p.coins|;
    assert p.coins[..n] == p.coins;
    forall k | 0 < k <= n ensures !TooLarge(p, k) {
      DraftGrows(p, k);
    }
    var a, b := LegacyCount(p.allTx, p.coins), WitnessCount(p.allTx, p.coins);
    DraftSize(p, n);
    InputSizes(p.allTx, p.coins);
    OneOutput(o);
    EstimateSuffices(a, b);
    FeeGrows(p.feePerKb, VSize(Draft(p, n)) + TX_OUTPUT_SIZE, EstimatedSize(a + b));
  }

  lemma OneOutput(o: TxOutput)
    requires |o.script| == P2PKH_SCRIPT_SIZE
    ensures Sum([o]) == o.amount && OutputsSize([o]) == 8 + 1 + P2PKH_SCRIPT_SIZE
  {
    assert [o][..0] == [];
  }

  /** Spending the maximum, end to end, for wallets whose coins are all legacy or all witness. */
  method SpendMaximum(p: Purse, script: seq<Byte>, change: seq<Byte>, fuel: nat) returns (amount: nat, r: Option<Tx>)
    requires |script| == P2PKH_SCRIPT_SIZE && p.walletBalance == InputSum(Inputs(p.allTx, p.coins))
    requires LegacyCount(p.allTx, p.coins) == 0 || WitnessCount(p.allTx, p.coins) == 0
    requires SizeFor(LegacyCount(p.allTx, p.coins), WitnessCount(p.allTx, p.coins), 1, 8 + 1 + P2PKH_SCRIPT_SIZE)
             + TX_OUTPUT_SIZE <= TX_MAX_SIZE
    ensures amount == Maximum(p)
    ensures amount > 0 ==> r.Some? && Conserves(p.(outputs := [TxOutput(amount, script)]), change, r.value)
  {
    hide VSize, TxFee, Draft, TooLarge, Enough, Fee, Gathered, EstimatedSize, Sum, Inputs, InputSum;
    amount := MaxOutputAmount(p);
    r := None;
    if amount > 0 {
      var o := TxOutput(amount, script);
      var p' := p.(outputs := [o]);
      SomeCoin(p);
      OneOutput(o);
      assert p.coins[..|p.coins|] == p.coins;
      DraftSize(p', |p.coins|);
      MaximumIsSpendable(p', o);
      FirstAttempt(p', fuel);
      r := CreateTx(p', change, fuel);
    }
  }

  lemma SomeCoin(p: Purse)
    requires Maximum(p) > 0
    ensures LegacyCount(p.allTx, p.coins) + WitnessCount(p.allTx, p.coins) > 0
  {
    InputSizes(p.allTx, p.coins);
  }

  /** Every coin is known and worth at least so much. */
  predicate AllWorth(p: Purse, worth: nat) {
    forall k :: 0 <= k < |p.coins| ==> Known(p.allTx, p.coins[k]) && InputFor(p.allTx, p.coins[k]).amount >= worth
  }

  /** Leaving out the coins from the `k`-th on saves at least as much fee as they are worth: exactly
      as much, or enough more for change. */
  predicate CanSpare(p: Purse, k: nat)
    requires p.outputs != []
  {
    && 0 < k < |p.coins| && Known(p.allTx, p.coins[k - 1])
    && var cost := InputSum(Inputs(p.allTx, p.coins)) - Gathered(p, k) + Fee(p, k);
       cost == EstimatedFee(p) || cost + MinAmount(p.feePerKb) <= EstimatedFee(p)
  }

  function EstimatedFee(p: Purse): nat { TxFee(p.feePerKb, EstimatedSize(|Inputs(p.allTx, p.coins)|)) }

  /** If all coins fit into one transaction, the advertised maximum can be spent exactly when the
      estimated fee covers the real one, or some coins at the end cost more than they are worth. */
  lemma MaximumIsExact(p: Purse, o: TxOutput, fuel: nat)
    requires p.outputs == [o] && o.amount == Maximum(p) > 0
    requires p.walletBalance == InputSum(Inputs(p.allTx, p.coins))
    requires VSize(Draft(p, |p.coins|)) + TX_OUTPUT_SIZE <= TX_MAX_SIZE
    ensures Attempted(p, fuel)
         == if PlainFee(p, |p.coins|) <= EstimatedFee(p) || exists k :: CanSpare(p, k) then Some([o]) else None
  {
    hide Attempted, CanCreate, CanSpare, Draft, VSize, PlainFee, Inputs;
    forall k | 0 < k <= |p.coins| ensures !TooLarge(p, k) {
      FitsThroughout(p, k);
    }
    FirstAttempt(p, fuel);
    CreatedIfCovered(p, o);
  }

  lemma FitsThroughout(p: Purse, k: nat)
    requires k <= |p.coins| && VSize(Draft(p, |p.coins|)) + TX_OUTPUT_SIZE <= TX_MAX_SIZE
    ensures !TooLarge(p, k)
  {
    hide VSize, Draft;
    DraftGrows(p, k);
  }

  lemma CreatedIfCovered(p: Purse, o: TxOutput)
    requires p.outputs == [o] && o.amount == Maximum(p) > 0
    requires p.walletBalance == InputSum(Inputs(p.allTx, p.coins))
    ensures CanCreate(p) <==> PlainFee(p, |p.coins|) <= EstimatedFee(p) || exists k :: CanSpare(p, k)
  {
    hide VSize, TxFee, EstimatedSize, MinAmount, Inputs, InputSum, Draft;
    var n := |p.coins|;
    assert p.coins[..n] == p.coins;
    assert [o][..0] == [];
    assert Sum(p.outputs) == o.amount;
    forall k | 0 < k < n ensures CanSpare(p, k) <==> Enough(p, k) {
    }
    SomeInput(p);
    WholeFee(p);
  }

  lemma SomeInput(p: Purse)
    requires Maximum(p) > 0
    ensures Inputs(p.allTx, p.coins) != []
  {
  }

  /** The fee for all coins is covered if it is before it is rounded. */
  lemma WholeFee(p: Purse)
    requires p.outputs != [] && Inputs(p.allTx, p.coins) != []
    requires p.walletBalance == Sum(p.outputs) + EstimatedFee(p)
    ensures Fee(p, |p.coins|) <= EstimatedFee(p) <==> PlainFee(p, |p.coins|) <= EstimatedFee(p)
  {
    hide PlainFee, EstimatedFee, Inputs, Sum;
    assert p.coins[..|p.coins|] == p.coins;
  }

  /** In particular, if every coin is worth the estimated fee, the maximum can be spent exactly when
      the estimated fee covers the real one. */
  lemma MaximumByFees(p: Purse, o: TxOutput, fuel: nat)
    requires p.outputs == [o] && o.amount == Maximum(p) > 0
    requires p.walletBalance == InputSum(Inputs(p.allTx, p.coins))
    requires VSize(Draft(p, |p.coins|)) + TX_OUTPUT_SIZE <= TX_MAX_SIZE
    requires AllWorth(p, EstimatedFee(p))
    ensures Attempted(p, fuel) == if PlainFee(p, |p.coins|) <= EstimatedFee(p) then Some([o]) else None
  {
    hide Attempted, VSize, Draft, TxFee, EstimatedFee, PlainFee;
    MaximumIsExact(p, o, fuel);
    assert p.coins[..|p.coins|] == p.coins;
    forall k | 0 < k < |p.coins| ensures !CanSpare(p, k) {
      GatheredShort(p, k, EstimatedFee(p));
      FeeIsPositive(p, k);
    }
  }

  lemma FeeIsPositive(p: Purse, k: nat)
    requires k <= |p.coins|
    ensures Fee(p, k) > 0
  {
    hide VSize, Draft;
  }

  lemma {:induction false} AllKnown(allTx: map<Hash, Tx>, coins: seq<Outpoint>)
    requires forall k :: 0 <= k < |coins| ==> Known(allTx, coins[k])
    ensures |Inputs(allTx, coins)| == |coins|
  {
    if coins != [] {
      AllKnown(allTx, coins[..|coins| - 1]);
    }
  }

  lemma {:induction false} GatheredShort(p: Purse, k: nat, worth: nat)
    requires k < |p.coins|
    requires AllWorth(p, worth)
    ensures Gathered(p, k) + worth <= Gathered(p, |p.coins|)
    decreases |p.coins| - k
  {
    hide Gathered;
    UsedCoin(p, k + 1);
    if k + 1 < |p.coins| {
      GatheredShort(p, k + 1, worth);
    }
  }

  /** For example, with 464 legacy coins and one witness coin at the minimum rate it cannot. */
  lemma MixedExample(p: Purse, o: TxOutput, fuel: nat)
    requires p.outputs == [o] && |o.script| == P2PKH_SCRIPT_SIZE && o.amount == Maximum(p) > 0 && p.feePerKb == 1000
    requires p.walletBalance == InputSum(Inputs(p.allTx, p.coins))
    requires |p.coins| == 465 && WitnessCount(p.allTx, p.coins) == 1
    requires AllWorth(p, 68900)
    ensures Attempted(p, fuel) == None
  {
    hide VSize, Attempted, Inputs, InputSum;
    assert p.coins[..465] == p.coins;
    AllKnown(p.allTx, p.coins);
    InputSizes(p.allTx, p.coins);
    DraftSize(p, 465);
    OneOutput(o);
    assert SizeFor(464, 1, 1, 34) == 68872;
    assert EstimatedSize(465) == 68900;
    assert TxFee(1000, 68900) == 68900 && TxFee(1000, 68906) == 69000;
    MaximumByFees(p, o, fuel);
  }

  /** Such a purse: 465 outputs of one transaction, the last one to a witness program. */
  function MixedPurse(outputs: seq<TxOutput>): Purse {
    var legacy, segwit := seq(25, i => 0x76), [0, 20] + seq(20, i => 7);
    var funding := seq(465, i requires 0 <= i < 465 => TxOutput(100000, if i == 464 then segwit else legacy));
    Purse(map[1 := Tx(1, TX_VERSION, [], funding, 0, TX_UNCONFIRMED, 0)],
          seq(465, i requires 0 <= i < 465 => Outpoint(1, i)), 46500000, 1000, outputs)
  }

  lemma MixedPurseIsStuck(script: seq<Byte>, fuel: nat)
    requires |script| == P2PKH_SCRIPT_SIZE
    ensures Maximum(MixedPurse([])) == 46431100
    ensures Attempted(MixedPurse([TxOutput(46431100, script)]), fuel) == None
  {
    var o := TxOutput(46431100, script);
    var p, none := MixedPurse([o]), MixedPurse([]);
    MixedCoins(p, 465);
    MixedCoins(none, 465);
    assert p.coins[..465] == p.coins && none.coins[..465] == none.coins;
    assert EstimatedSize(465) == 68900 && TxFee(1000, 68900) == 68900;
    assert Maximum(p) == Maximum(none) == 46431100;
    MixedExample(p, o, fuel);
  }

  lemma {:induction false} MixedCoins(p: Purse, n: nat)
    requires n <= 465 && p == MixedPurse(p.outputs)
    ensures InputSum(Inputs(p.allTx, p.coins[..n])) == 100000 * n
    ensures |Inputs(p.allTx, p.coins[..n])| == n
    ensures WitnessCount(p.allTx, p.coins[..n]) == if n == 465 then 1 else 0
  {
    if n > 0 {
      MixedCoins(p, n - 1);
      UsedCoin(p, n);
      assert p.coins[..n][..n - 1] == p.coins[..n - 1];
    }
  }

  // ----- the wallet's own purse

  function PurseOf(w: Wallet, feePerKb: Option<nat>, outputs: seq<TxOutput>): Purse
    reads w
  {
    Purse(w.allTx, w.utxos, w.balance, if feePerKb.Some? then feePerKb.value else w.feePerKb, outputs)
  }

  lemma {:induction false} TotalAppend(allTx: map<Hash, Tx>, s: seq<Outpoint>, o: Outpoint)
    ensures Total(allTx, s + [o]) == Total(allTx, s) + ValueOf(allTx, o)
  {
    TotalConcat(allTx, s, [o]);
    TotalSingle(allTx, o);
  }

  lemma {:induction false} InputsAreWorth(allTx: map<Hash, Tx>, coins: seq<Outpoint>)
    ensures InputSum(Inputs(allTx, coins)) == Total(allTx, coins)
  {
    if coins != [] {
      hide Total;
      var init, o := coins[..|coins| - 1], coins[|coins| - 1];
      assert coins == init + [o];
      InputsAreWorth(allTx, init);
      TotalAppend(allTx, init, o);
      if Known(allTx, o) {
        assert (Inputs(allTx, init) + [InputFor(allTx, o)])[..|Inputs(allTx, init)|] == Inputs(allTx, init);
      } else {
        assert Inputs(allTx, coins) == Inputs(allTx, init);
      }
    }
  }

  /** In a wallet that is up to date coins are listed once, and unless 64 bits overflow, its balance
      is the worth of its coins: the assumptions of the theorems above. */
  lemma WalletPurse(w: Wallet, now: int, feePerKb: Option<nat>, outputs: seq<TxOutput>)
    requires w.Valid() && UpToDate(w, now)
    ensures var p := PurseOf(w, feePerKb, outputs);
            && Distinct(p.coins)
            && (Total(w.allTx, w.utxos) < UINT64 ==> p.walletBalance == InputSum(Inputs(p.allTx, p.coins)))
  {
    hide UpToDate, Utxos, Total, Inputs, InputSum;
    BalanceIdentities(w, now);
    CoinsListed(w, now);
    ListedOnce(w);
    UtxosDistinct(EnvOf(w, now), Listed(w.allTx, w.transactions));
    InputsAreWorth(w.allTx, w.utxos);
  }

  lemma CoinsListed(w: Wallet, now: int)
    requires w.Valid() && UpToDate(w, now)
    ensures w.utxos == Utxos(EnvOf(w, now), Listed(w.allTx, w.transactions))
  {
    hide Utxos, BookOf, Resolvable, AllPaidTo, ReflectsHistory, Balance;
  }

  lemma ListedOnce(w: Wallet)
    requires w.Valid()
    ensures DistinctHashes(Listed(w.allTx, w.transactions))
  {
    forall i | 0 <= i < |w.transactions| ensures Listed(w.allTx, w.transactions)[i].txHash == w.transactions[i] {
      assert w.transactions[i] in w.transactions;
    }
  }
}

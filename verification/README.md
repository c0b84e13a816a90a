# breadwallet-core, modelled and verified in Dafny

A model of the parts of breadwallet-core where imperative C has to agree with a simple
mathematical object, and proofs that it does, or exactly when it does.  To verify the project, run
`dafny verify dfyconfig.toml` with Dafny 4.11.

## What is modelled

**Wallet ledger** (`bitcoin/BRWallet.c`).  `Transactions` and `WalletState` hold the data: a
`class Wallet` with the fields the source updates in place.  `WalletBalance` is a declarative
account of the balance pass; `BalanceUpdate` has the loops, proved against it, and
`BalanceTheorems` says what it means for single outputs, for the history and for reordered lists,
`BalanceClasses` what makes a transaction invalid, pending or accepted, `BalanceMoves` how one more moves the balance.
`WalletOrder`, `WalletLedger`, `WalletRemoval` and `WalletCreation` keep the list sorted and free of
repetition through registering, height updates, un-confirming, cascading removal and loading.
`OrderRules` says what decides that order, `RemovalRules` what a removal takes along, `WalletCache` when the balance holds without being recomputed.
`AddressChain` has the gap-limit chains, `CoinSelection` and `CoinTheorems` the choice of coins, fee
and change, and when the advertised maximum can be spent; `CoinFees` says what fees and change are in numbers.

**Block proofs and difficulty** (`bitcoin/BRMerkleBlock.c`, `bitcoin/BRChainParams.c`,
`bcash/BRBCashParams.c`).  `MerkleTree` defines full and partial trees; `MerkleProof` has the two
decoders over their shared cursors; `MerkleTheorems` treats arbitrary input, `MerkleInclusion` what the
root comparison proves and what it does not, `MerkleRoundTrip` the encoder of BIP 37, section "Partial
Merkle branch format".  `Retarget` and `Difficulty` cover compact
targets, the 2016-block retarget and the proof-of-work check, `CashWork` the Bitcoin Cash rule with
its work sum in a floating byte scale, `CashTarget` what target it demands as a number.  `TargetSchedule` follows the targets
along a whole chain, `CashRules` says what the work and the median of single blocks are.

**Chain state machine** (`bitcoin/BRPeerManager.c`).  `BlockChain` gives the block-relay step as a
function on (blocks, orphans, tip, estimated height), `ChainTheorems` proves what every run keeps,
`ChainFailures` when exactly an internal check stops a run, `ChainProgress` when exactly the tip moves and what
becomes of every relay, `Reorganisation` relates a change of branch to the wallet's heights, and `PeerManager` has the
methods on the manager's fields, proved to take exactly those steps; `WalletProgress` says what the steps do to the
wallet's transactions, `ChainResume` that a manager made from saved blocks resumes at their tip.

**Scan protocol** (`bitcoin/BRSyncManager.c`, and the event relation of
`bitcoin/BRWalletManager.c`).  `SyncProtocol` makes each lock-held section of the client manager one
atomic step; `SyncTheorems` quantifies over every sequence of steps, so over every interleaving of
callers; `SyncProgress` says how the synced height moves and that scans catch up with the network; `SyncManager` has the
methods, proved to refine the steps.

**Codecs.**  Transactions as of BIP 144 with the stripped pre-image of the txid (`CompactSize`,
`TransactionCodec`, `TransactionParser`, `TransactionTheorems`, `TransactionCanonical`, `TransactionVector`; `bitcoin/BRTransaction.c`), cashaddr
strings (`CashChecksum`, `CashField`, `CashAddr`, `CashAddrText`, `CashAddrCanonical`, `CashAddrCase`, `CashAddrVector`; `bcash/BRBCashAddr.c`), and the protobuf layer
with payment details (`bitcoin/BRPaymentProtocol.c`).  There `ProtoBuf` reads and writes fields, `UnknownFields` keeps
copies of those that are not known, `PaymentProtocol` has the methods on details and outputs, `PaymentRoundTrip` what
comes back of what was written.  The offsets of readers are 64-bit and wrap: `OffsetLoops` and `FieldLoops` say when loops over
such offsets are left, `PaymentLoops` what that means for parsing.  `PaymentVector` has an example in bytes and the
smallest readers.

## Conventions

- A hash is a natural number, zero for the all-zero hash.  Hashing, key derivation, `BRScriptPKH`,
  `BRScriptPubKeyIsValid` and the `verifyDifficulty` callback are function values; where a theorem needs
  more of them (collision freedom, injective derivation) it says so in its `requires`.
- A transaction hash commits to what the transaction spends and a block hash to its predecessor.
  Ghost functions stand for this: `rank` grows from a transaction to its spenders, `H` gives the
  true height of a block hash.  They bound the recursions the source runs without a bound.
- The clock, a peer's reported height, random numbers and whether a reallocated array moved are
  parameters or arbitrary choices.
- Hash sets are maps, growing arrays are sequences held in fields, buffers written at an offset are
  byte sequences or arrays.  Widths are explicit wherever they matter: balances wrap at 2^64 as in
  the source, the two difficulty rules are shown never to wrap.

## Where the code differs from what one expects

The model follows the code; each of these is stated by a member of the project.

- A pending transaction after the last accepted one leaves its coins both unspent and in the spent set;
  nothing else does (`UnspentAndSpent`, `TrailingPendingKeepsCoins`).
- Removal misses a dependent all of whose dependent inputs sit above it, such as a confirmed spender of
  an unconfirmed transaction, and only then is it not exact (`RemovalIsExact`, `ConfirmedSpenderSurvives`).
- A new wallet is refused only if its first saved transaction does not concern it (`Load`); it is accepted
  with later ones that do not (`LoadStranger`).
- The adjustment before a second attempt at an oversize transaction can raise the last output
  although its comment speaks of reducing it, so that more is paid than was asked for (`RetryRaises`,
  `RaisedExample`).
- In a wallet whose coins all fit into one transaction, the advertised maximum cannot be spent if the real
  fee exceeds the estimated one and no coins at the end cost more than they are worth (`MaximumIsExact`), which happens in wallets that mix legacy and
  witness coins (`EstimateSuffices`, `MixedExample`, `MixedPurseIsStuck`).
- A block is found valid by comparing roots alone, and not even these if its count is zero.  That makes
  the message a part of the block's tree only if no fork had equal children, no hash is zero and the
  count gives the right height (`ProofIsExact`); without the first an arbitrary hash can be reported
  (`AnythingIsReported`), without the second zero (`ZeroHashIsReported`), without the third an inner node
  (`InnerNodeIsReported`), and with a count of zero anything (`NoCountNoCheck`).
- The retarget misses the canonical compact form for previous targets with a short mantissa
  (`RetargetExact`, `ShortMantissaMisses`).
- The Bitcoin Cash rule accepts a target one below the one it demands (`CashVerifyDifficulty`).
- A signature that is itself a valid scriptPubKey does not read back (`SignedInputReads`), and the size
  formula falls short for 253 or more witness items (`SizeIsLength`).  Any flag byte but zero is taken for the flag of
  a transaction with witnesses (`AcceptedIsSerialized`).
- The cashaddr decoder accepts three kinds of strings that are no encoding of what they decode to
  (`AcceptedIsEncoded`): with padding bits set, which the specification forbids (`PaddedDecodes`), with
  33 instead of 34 symbols (`ShortDecodes`), and without a separator (`NoSeparatorDecodes`).
- An internal check can stop the manager for good, with its lock held (`StepFails`), for instance on a
  block that follows a later checkpoint than the tip (`StopsOnLaterCheckpoint`).
- Parsing payment details need not come to an end: it does if and only if it does so within as many fields as the
  buffer has bytes (`EndsExactly`).  A length that wraps the offset leads the details or an output back to where
  they were, for ever (`WrappedTimeNeverEnds`, `WrappedAmountNeverEnds`); so does an outputs field without data,
  as in 0x10 0x00, because the output loop then reads key 0 from a NULL buffer (`NullNeverEnds`,
  `IntegerOutputNeverEnds`); and storing an unknown field can run in circles in the array of copies, for three
  well-formed fields in a row (`UnknownNeverEnds`).  Where nothing wraps and every unknown field fits its copy,
  only the outputs field without data is left (`PlainEndsExactly`).
- The copy of an unknown field is the field itself if and only if its header fits ten bytes (`PackedExactly`).
- Unknown fields are inserted in order of their keys, except that one above all others goes before the last field
  instead of behind it (`WithAscends`).  So two or more do not come back in the order in which they were written
  (`RearrangedOrder`, `RoundTripIsExact`), but none is lost (`RearrangedConserves`).

## Model

| member | source | states |
|---|---|---|
| BalanceUpdate.UpdateBalance | bitcoin/BRWallet.c:156-250 | after the pass every derived field is what the declarative specification says of the registered transactions in order, and the history has one entry per transaction |
| BalanceUpdate.CheckInvalid | bitcoin/BRWallet.c:178-189 | an unconfirmed transaction is found invalid iff an input is already spent or comes from an invalid transaction |
| BalanceUpdate.CheckPending | bitcoin/BRWallet.c:197-218 | pending iff too large, or an output is dust, or an input is replaceable, not final at the next height or now, or spends a pending transaction |
| BalanceUpdate.Settle | bitcoin/BRWallet.c:174-246 | one turn classifies a transaction and takes the wallet from the book of a prefix to the book of the prefix with it |
| BalanceUpdate.Accept | bitcoin/BRWallet.c:224-240 | an accepted transaction adds its owned outputs and drops everything spent, with the balance following modulo 2^64 |
| BalanceUpdate.DropSpent | bitcoin/BRWallet.c:235-240 | the backward loop removes exactly the spent outputs and subtracts exactly their worth |
| BalanceUpdate.Record | bitcoin/BRWallet.c:242-245 | history, total received and total sent gain the change of the balance |
| BalanceTheorems.UtxoMeaning | bitcoin/BRWallet.c:156-250 | an output is listed as unspent iff an accepted transaction provides it to the wallet and no transaction that is not invalid spends it up to the last accepted one |
| BalanceTheorems.UnspentAndSpent | bitcoin/BRWallet.c:185-246 | an output is both unspent and in the spent set iff the wallet got it, nothing up to the last accepted transaction takes it, and a pending transaction spends it |
| BalanceTheorems.TrailingPendingKeepsCoins | bitcoin/BRWallet.c:178-240 | one more spender of a coin removes it if accepted, leaves it both unspent and in the spent set if pending, and changes nothing about it if invalid |
| BalanceTheorems.BalanceIdentities | bitcoin/BRWallet.c:156-250 | balance is the sum of the unspent outputs and received minus sent (modulo 2^64), and history entry i is the balance of the first i + 1 transactions |
| BalanceMoves.AcceptedMoves | bitcoin/BRWallet.c:224-240 | conservation: an accepted transaction adds what it pays to the wallet to the worth of the unspent outputs, and takes off what those it spends hold |
| BalanceMoves.OthersMoveNothing | bitcoin/BRWallet.c:178-222 | any other leaves the unspent outputs as they are |
| BalanceMoves.BalanceIsWorth | bitcoin/BRWallet.c:224-245 | the balance is what the unspent outputs hold, in 64 bits |
| BalanceTheorems.OrderIsIrrelevant | bitcoin/BRWallet.c:156-250 | if all transactions are confirmed, any reordering of the list gives the same unspent set and balance |
| BalanceTheorems.UtxosDistinct | bitcoin/BRWallet.c:224-232 | no output is listed as unspent twice |
| BalanceClasses.InvalidExactly | bitcoin/BRWallet.c:178-189 | a transaction is invalid if and only if it is unconfirmed and one of its inputs is also spent by an earlier transaction that is not invalid, or comes from an earlier one that is |
| BalanceClasses.DescendantsAreInvalid | bitcoin/BRWallet.c:181-181 | so is everything that spends from it, at any distance, as long as it is unconfirmed |
| BalanceClasses.PendingExactly | bitcoin/BRWallet.c:192-218 | a transaction is pending if and only if it is unconfirmed, not invalid, and over 100000 bytes, with an output below 546, with an input that leaves it replaceable or under a lock time not reached, or with a pending parent |
| BalanceClasses.AcceptedExactly | bitcoin/BRWallet.c:174-246 | every other transaction is accepted, and every confirmed one |
| BalanceClasses.UsedExactly | bitcoin/BRWallet.c:224-232 | a key counts as used if and only if it is the wallet's and an accepted transaction pays to it |
| BalanceClasses.TotalsAreMovements | bitcoin/BRWallet.c:242-245 | received and sent together are all movements of the balance along its history, and their difference is where it ends |
| WalletOrder.CompareRespectsHeights | bitcoin/BRWallet.c:86-117 | the comparison never contradicts the heights, and at equal heights a direct spender compares above what it spends |
| OrderRules.AscendsExactly | bitcoin/BRWallet.c:86-106 | a transaction is above another if and only if a line of known transactions, each spent by the one before it, leads from it to one that is higher, or as high and spends the other |
| OrderRules.CompareExactly | bitcoin/BRWallet.c:108-118 | all outcomes of the comparison: by such lines first, then by the last change address paid if both pay one, then by the last receive address, and else a tie |
| OrderRules.LastPaidExactly | bitcoin/BRWallet.c:55-67 | the index of a transaction in a chain is the last position of a key that it pays, and none if it pays none |
| WalletOrder.InsertTx | bitcoin/BRWallet.c:120-132 | the insertion sort puts the transaction right below everything at the end that compares above it, keeps the rest in order, and keeps the list sorted by height and free of repetition |
| WalletLedger.ContainsTx | bitcoin/BRWallet.c:135-154 | true iff an output pays to a wallet key or an input spends a known output that did |
| WalletCache.ConcernsExactly | bitcoin/BRWallet.c:135-154 | a transaction concerns the wallet if and only if it has an output of those the balance pass counts, or spends such an output of a known transaction |
| WalletLedger.RegisterTransaction | bitcoin/BRWallet.c:777-806 | a signed, unknown wallet transaction is inserted and everything recomputed; an unrelated one is remembered only while unconfirmed; anything else changes nothing; the ledger invariant is kept |
| WalletLedger.Touch | bitcoin/BRWallet.c:1020-1041 | one hash: height and time are set, a wallet transaction is put back in order, an unrelated confirmed one is dropped, and the report says exactly when |
| WalletLedger.Reposition | bitcoin/BRWallet.c:1027-1032 | a registered transaction whose height changed is taken out and put back where the comparison places it; the list is sorted again and nothing is lost |
| WalletLedger.UpdateTransactions | bitcoin/BRWallet.c:1007-1046 | all listed transactions are stamped exactly once, the ledger invariant is kept, and the balance is recomputed iff a changed one was pending or invalid |
| WalletCache.CacheHolds | bitcoin/BRWallet.c:1007-1046 | without being recomputed the unspent outputs and the balance are right if nothing is pending before or after and the same transactions are accepted |
| WalletLedger.ConcernsIsStable | bitcoin/BRWallet.c:135-154 | setting heights and dropping unrelated transactions never changes which transactions belong to the wallet |
| WalletLedger.SetTxUnconfirmedAfter | bitcoin/BRWallet.c:1049-1070 | exactly the registered transactions above the height become unconfirmed, nothing else changes, and the list stays sorted |
| WalletLedger.SplitAt | bitcoin/BRWallet.c:1056-1058 | on a sorted list the backward walk finds exactly the transactions above the height |
| WalletRemoval.RemoveTransaction | bitcoin/BRWallet.c:821-885 | the list keeps, in order, exactly what is not reached from the removed hash through spenders not below what they spend; known transactions stay known; the recursion terminates by list length and rank |
| RemovalRules.RemovedExactly | bitcoin/BRWallet.c:821-862 | what goes: if and only if a line of transactions leads from it to the one removed, each spending the next and none above the one before it; the others stay, once each and in order |
| RemovalRules.UnconfirmedSpendersGo | bitcoin/BRWallet.c:837-843 | an unconfirmed transaction takes along every unconfirmed one that spends it |
| RemovalRules.NothingDangles | bitcoin/BRWallet.c:835-862 | where no registered transaction is below one that it spends, nothing stays that spends what went |
| WalletRemoval.FindDependents | bitcoin/BRWallet.c:835-845 | the scan from the end finds exactly the registered spenders at or above the height of the transaction |
| WalletRemoval.RemovalIsExact | bitcoin/BRWallet.c:821-885 | exactly the transaction and its transitive registered spenders go, if and only if each of these spends one of them at or below its own height |
| WalletRemoval.NoneLeftBehind | bitcoin/BRWallet.c:835-845 | removal is exact whenever no registered spender sits below what it spends |
| WalletRemoval.ConfirmedSpenderSurvives | bitcoin/BRWallet.c:837-837 | removal misses a confirmed spender of an unconfirmed transaction: it survives |
| WalletCreation.Load | bitcoin/BRWallet.c:253-301 | a new wallet holds each signed saved transaction once, in order, with an up-to-date balance and key chains that end with just the extended gap of keys not paid to; it is refused iff the first saved transaction does not concern it |
| WalletCreation.LoadStranger | bitcoin/BRWallet.c:253-301 | a wallet of two saved transactions, the first paying to its first key, is accepted with the second, which does not concern it, registered |
| WalletCreation.AddSaved | bitcoin/BRWallet.c:278-288 | the loading loop sorts, drops unsigned and repeated transactions, and marks exactly the keys paid to as used |
| WalletCreation.PaidIsFound | bitcoin/BRWallet.c:290-291 | recovery: every key of a chain that a saved transaction pays to is found, if before it there are never as many keys in a row that none pays to as the extended gap |
| AddressChain.UnusedAddrs | bitcoin/BRWallet.c:332-389 | the chain is only extended, and only as far as needed, until gapLimit unused keys follow the last used one; these are returned; allPKH stays the union of both chains whether or not the array moved |
| AddressChain.Extend | bitcoin/BRWallet.c:346-358 | the generation loop terminates by (used keys not in the chain, distance to the limit) when derivation is injective |
| AddressChain.ReturnedAreUnused | bitcoin/BRWallet.c:332-389 | the keys returned come right after the last used one and are all unused |
| AddressChain.GrowthIsLeast | bitcoin/BRWallet.c:349-358 | a chain that grew has exactly the gap asked for |
| AddressChain.RegisterAndExtend | bitcoin/BRWallet.c:777-818 | registering with address generation says what is added and returned, keeps the ledger and chain invariants, and restores the gap behind used keys in both chains |
| AddressChain.MoreKeysConcern | bitcoin/BRWallet.c:135-154 | more wallet keys never take a transaction out of the wallet |
| CoinSelection.SelectCoins | bitcoin/BRWallet.c:653-700 | coins are added in order up to the first that meets the amount or makes the transaction too large; sums and rounded fee are those of that prefix, and what the retry subtracts does not underflow |
| CoinSelection.CreateTx | bitcoin/BRWallet.c:627-718 | a transaction is made iff one of the attempts, each derived from the one before, succeeds; it spends exactly the coins up to where selection stops, has the outputs of that attempt, and its change and fee account for the rest |
| CoinSelection.FirstAttempt | bitcoin/BRWallet.c:627-718 | while nothing gets too large the outputs are those asked for, and a transaction is made iff some prefix of the coins is enough or all coins cover amount and fee |
| CoinSelection.AttemptIsPart | bitcoin/BRWallet.c:660-684 | a retry asks for a nonempty prefix of the original outputs, in which only the amount of the last one may differ |
| CoinSelection.FuelIsEnough | bitcoin/BRWallet.c:660-684 | once some bound on the retries lets an attempt succeed, every larger bound gives the same outcome |
| CoinSelection.Shuffle | bitcoin/BRTransaction.c:543-557 | the shuffle is a permutation whatever the random numbers |
| CoinSelection.FeeGrows | bitcoin/BRWallet.c:46-52 | the fee grows with the size |
| CoinFees.FeeIsAtRate | bitcoin/BRWallet.c:46-52 | the fee is at least the size at the rate asked for and at least one a byte; unless it is exactly that, it is a multiple of 100 less than 100 above the former |
| CoinFees.FeeGrowsWithRate | bitcoin/BRWallet.c:46-52 | the fee is monotone in the rate |
| CoinFees.MinAmountIsAtRate | bitcoin/BRWallet.c:1221-1229 | the smallest output is 546 up to 1000 per kilobyte, and above that 546 at the rate, rounded up |
| CoinFees.SelectionIsLeast | bitcoin/BRWallet.c:653-700 | coins are taken until what is left over is nothing or a possible change output, or the size limit is reached, and no further |
| CoinFees.RetryNeedsFunds | bitcoin/BRWallet.c:660-668 | a second attempt at an oversize transaction is made if and only if the balance covers amount and fee at 148 bytes for every coin |
| CoinFees.RetryAsksForLess | bitcoin/BRWallet.c:669-678 | it asks for what is missing less of the last output, or leaves it out if no output above the smallest is left |
| CoinTheorems.CreatedConserves | bitcoin/BRWallet.c:627-718 | inputs are distinct wallet coins at their worth, all outputs asked for are there with at most one more; inputs minus outputs is the fee with change (which exceeds the smallest amount), else at most that amount more; balance less amount and fee, which with change is what the wallet keeps, is a multiple of 100 |
| CoinFees.CreatedPays | bitcoin/BRWallet.c:627-718 | inputs less outputs of a created transaction, in numbers: at least its size with a change output at the rate asked for and one a byte; above that no more than rounding, and the smallest output if there is no change |
| CoinFees.CreatedIsFinal | bitcoin/BRWallet.c:657-659 | a created transaction is of version 1, without a lock time, unsigned, and no input of it can be replaced |
| CoinTheorems.SumOfShuffled | bitcoin/BRTransaction.c:543-557 | the order of outputs does not change their sum |
| CoinTheorems.RetryRaises | bitcoin/BRWallet.c:669-678 | the attempt after an oversize one asks for more iff the coins gathered before already cover amount and fee and the last output is adjusted, not dropped |
| CoinTheorems.RaisedExample | bitcoin/BRWallet.c:660-684 | two coins and one large output for which the retry makes a transaction that pays 300 more than asked for |
| CoinTheorems.MaxOutputAmount | bitcoin/BRWallet.c:1236-1265 | the loop from the end computes the worth of all known coins less the estimated fee |
| CoinTheorems.EstimateSuffices | bitcoin/BRWallet.c:1260-1264 | the size estimate covers the real size with change iff there are no witness coins or the a legacy and b witness coins satisfy a + 2 <= 443 b |
| CoinTheorems.MaximumIsExact | bitcoin/BRWallet.c:627-718 | if all coins fit into one transaction, creating one for the advertised maximum succeeds iff the estimated fee covers the real one, or leaving out coins at the end saves at least their worth in fees |
| CoinTheorems.MaximumIsSpendable | bitcoin/BRWallet.c:1236-1265 | when the size estimate covers the real size, creating a transaction for the advertised maximum never gets too large and finds enough coins |
| CoinTheorems.SpendMaximum | bitcoin/BRWallet.c:627-718 | end to end for all-legacy or all-witness coins: a positive maximum is spent by a value-conserving transaction |
| CoinTheorems.MaximumByFees | bitcoin/BRWallet.c:1236-1265 | if besides every coin is worth the estimated fee, the maximum can be spent iff that fee covers the real one |
| CoinTheorems.MixedExample | bitcoin/BRWallet.c:1260-1264 | for 464 legacy coins and one witness coin at the minimum rate no transaction is made for the advertised maximum |
| CoinTheorems.MixedPurseIsStuck | bitcoin/BRWallet.c:1260-1264 | such coins exist: 465 outputs of 100000, with an advertised maximum of 46431100 that cannot be spent |
| CoinTheorems.DraftGrows | bitcoin/BRTransaction.c:590-617 | the virtual size only grows with more inputs |
| CoinTheorems.WalletPurse | bitcoin/BRWallet.c:627-718 | in an up-to-date wallet coins are distinct and the balance is their worth, as the theorems above assume |
| MerkleProof.CeilLog2 | bitcoin/BRMerkleBlock.c:38-44 | the bit trick yields the height of a tree of x leaves |
| MerkleProof.CeilLog2Ends | bitcoin/BRMerkleBlock.c:42-42 | the shifting loop comes to an end iff the count is below 2^31 |
| MerkleProof.Walk.RootR | bitcoin/BRMerkleBlock.c:248-271 | value and cursors are those of the recursive specification |
| MerkleProof.Walk.TxHashesR | bitcoin/BRMerkleBlock.c:192-216 | appends exactly the matched hashes of the tree read at the cursors, as far as there is room, and leaves the cursors behind it |
| MerkleProof.Walk.Descend | bitcoin/BRMerkleBlock.c:209-212 | left branch, then right branch, over the shared cursors |
| MerkleProof.TxHashes | bitcoin/BRMerkleBlock.c:220-227 | counts all matched hashes without an array, else writes as many as fit |
| MerkleProof.RootIsValid | bitcoin/BRMerkleBlock.c:283-288 | the comparison accepts iff the returned root is that of the header, or the count is zero |
| MerkleTree.BlockTreeRoot | bitcoin/BRMerkleBlock.c:46-52 | the full tree with its marks has the Merkle root computed row by row with the last hash paired with itself |
| MerkleTree.BlockTreeShape | bitcoin/BRMerkleBlock.c:46-52 | the full tree has the height of _ceil_log2, gaps only on the right spine, and the transactions as leaves in order |
| MerkleTheorems.ParseIsDepthFirst | bitcoin/BRMerkleBlock.c:192-216 | the flags and hashes between the cursors are exactly the depth-first encoding of the tree read |
| MerkleTheorems.RootFollowsParse | bitcoin/BRMerkleBlock.c:248-271 | without a duplicate the root traversal ends at the same cursors with the value of the same tree; with one the hash cursor is SIZE_MAX for good |
| MerkleTheorems.DecodersAgree | bitcoin/BRMerkleBlock.c:192-271 | for arbitrary flags and hashes: the duplicate branch was taken iff the hash cursor ends at SIZE_MAX; otherwise both traversals end at the same positions and the value returned is that of the tree whose matches are reported |
| MerkleInclusion.ReportedAreLeaves | bitcoin/BRMerkleBlock.c:192-271 | with a collision-free hash, matched hashes of a sound tree with the root of a full tree are leaves of it, in order, unless zero is among them |
| MerkleInclusion.RootIsOfCut | bitcoin/BRMerkleBlock.c:248-271 | the root returned for arbitrary flags and hashes, poisoned or not, is that of the tree read up to the first unsound fork, with everything from there on missing |
| MerkleInclusion.CutIsSound | bitcoin/BRMerkleBlock.c:248-271 | that tree is sound, is the whole one iff no unsound fork was met, and has the first of its matches |
| MerkleInclusion.AcceptedPrefixIsReal | bitcoin/BRMerkleBlock.c:192-288 | when a block is accepted with the right height, what is reported before the first unsound fork are transactions of the block in order, unless zero is among them |
| MerkleInclusion.ProofIsExact | bitcoin/BRMerkleBlock.c:192-288 | a message that reports something is a part of the tree over the distinct transactions of a block, so that it reports transactions of it in order, iff its root is the block's, the hash cursor is not at SIZE_MAX, no hash is zero, and its count gives the right height |
| MerkleInclusion.ZeroHashIsReported | bitcoin/BRMerkleBlock.c:248-288 | an accepted message with an explicit zero right child, which is treated as missing, reports zero |
| MerkleInclusion.AnythingIsReported | bitcoin/BRMerkleBlock.c:262-288 | an accepted message with an unsound fork on the right reports an arbitrary nonzero hash; it is a transaction of the block only by chance |
| MerkleInclusion.InnerNodeIsReported | bitcoin/BRMerkleBlock.c:192-288 | an accepted message with a wrong count reports an inner node |
| MerkleInclusion.NoCountNoCheck | bitcoin/BRMerkleBlock.c:288-288 | with a count of zero any root is accepted and any single hash reported |
| MerkleRoundTrip.ParseInverts | bitcoin/BRMerkleBlock.c:192-216 | reading back an encoded partial tree whose missing children lie on the right spine gives the same tree; the hash list runs out exactly there |
| MerkleRoundTrip.EncodedTree | bitcoin/BRMerkleBlock.c:54-68 | the encoded block reads back as the pruning of the full tree |
| MerkleRoundTrip.RoundTrip | bitcoin/BRMerkleBlock.c:192-271 | for every nonempty list of distinct nonzero transactions (fewer than 2^31) and every match set, decoding the BIP 37 encoding returns the Merkle root of the full list and exactly the matched transactions in order |
| Difficulty.Normalize | bitcoin/BRMerkleBlock.c:357-358 | the shifting loop terminates and yields the normalised compact form |
| Difficulty.NextTarget | bitcoin/BRMerkleBlock.c:345-360 | the transition arithmetic computes the demanded target without 64-bit overflow |
| Difficulty.VerifyDifficulty | bitcoin/BRMerkleBlock.c:333-370 | accepts exactly linked blocks at the next height whose target is unchanged, or the demanded one at a transition with a known time |
| Difficulty.WalkBack | bitcoin/BRChainParams.c:105-109 | the loop is the n-th ancestor within the set, if there is one |
| Difficulty.MainNetVerifyDifficulty | bitcoin/BRChainParams.c:96-113 | accepts iff the predecessor is stored and the block is acceptable for the time of its 2016th ancestor |
| Difficulty.TransitionIsIdeal | bitcoin/BRMerkleBlock.c:325-332 | on a linked set an accepted transition counts from the block exactly 2016 below, and its target is the canonical form of the ideal target, capped |
| TargetSchedule.AcceptsExactly | bitcoin/BRMerkleBlock.c:333-370 | acceptance by targets alone: the predecessor's between transitions; at a transition the compact form of the ideal retarget from the 2016th ancestor, or the largest target |
| TargetSchedule.IdealInNumbers | bitcoin/BRMerkleBlock.c:345-355 | the ideal target in numbers: the previous one times the time taken, between half a week and eight weeks, over two weeks |
| TargetSchedule.TargetHolds | bitcoin/BRMerkleBlock.c:367-367 | on a chain of accepted blocks the target stays the same from one transition to the next |
| TargetSchedule.TargetOfPeriod | bitcoin/BRChainParams.c:96-113 | the whole schedule: every block has the target that the retarget at the start of its period gives, from the last target of the period before and the time that one took |
| TargetSchedule.AcceptedGrows | bitcoin/BRPeerManager.c:1115-1118 | storing an accepted block keeps such a chain |
| Difficulty.TargetBytes | bitcoin/BRMerkleBlock.c:293-294 | the 32 bytes written are the target as a little-endian number |
| Difficulty.HashBelowTarget | bitcoin/BRMerkleBlock.c:296-299 | the byte loop decides whether the hash, as a number, is at most the target |
| Difficulty.ProofOfWorkIsValid | bitcoin/BRMerkleBlock.c:290-299 | valid iff the target is positive, unsigned and at least minimum difficulty, and the hash does not exceed it |
| Retarget.CompareAgrees | bitcoin/BRMerkleBlock.c:360-360 | comparing canonical compact integers agrees with comparing the numbers they stand for |
| Retarget.CompactUnique | bitcoin/BRMerkleBlock.c:280-281 | a number has at most one canonical compact form |
| Retarget.NormalizedShift | bitcoin/BRMerkleBlock.c:357-358 | the loop keeps the leading bytes of the number |
| Retarget.RetargetExact | bitcoin/BRMerkleBlock.c:345-360 | what is demanded is the canonical compact form of floor(T * clamp(timespan) / 1209600), capped, if and only if the quotient keeps at least 0x8000 |
| Retarget.DemandedIsIdeal | bitcoin/BRMerkleBlock.c:325-332 | for canonical previous targets of size 4 or more, at most the cap, the demanded value is always the capped canonical form of the ideal target |
| Retarget.ShortMantissaMisses | bitcoin/BRMerkleBlock.c:345-360 | a previous target with a short mantissa for which the value demanded is not the compact form of the ideal target |
| CashWork.MedianBlock | bcash/BRBCashParams.c:104-114 | the swaps leave the block whose time lies between those of the other two |
| CashWork.AddWork | bcash/BRBCashParams.c:144-151 | one turn of the loop brings work and block work to a common byte scale and adds them as the specification does, without wrapping |
| CashWork.ShiftDown | bcash/BRBCashParams.c:148-149 | each of the two loops shifts by one byte for each step down to the lower scale |
| CashWork.AddAtScale | bcash/BRBCashParams.c:150-151 | the loop on the wrapped sum shifts at most once, and then the sum fits 64 bits |
| CashWork.PlusApproximates | bcash/BRBCashParams.c:144-151 | adding one block loses less than two units of the scale reached |
| CashWork.AccumulateWork | bcash/BRBCashParams.c:141-154 | the walk from the median "last" block stops at its first meeting with the median "first" one and sums up exactly the blocks before it |
| CashWork.WorkApproximates | bcash/BRBCashParams.c:141-154 | over any walked blocks the sum fits 64 bits and falls short of the exact sum by at most 2n (u - 1) over n blocks, u being the unit of the scale reached |
| CashWork.WorkBound | bcash/BRBCashParams.c:141-154 | over n > 0 walked blocks the scaled work never exceeds the exact sum of the per-block works and is below it by less than 2n units |
| CashWork.ComputeTarget | bcash/BRBCashParams.c:156-167 | scaling and inverting the work terminates, never wraps and yields the capped compact form of the specification, whose meaning CashTarget gives |
| CashTarget.ProjectedMeans | bcash/BRBCashParams.c:157-161 | the work per ten minutes falls short of the true one by less than two units after at most two byte shifts, and the second loop of shifts never runs |
| CashTarget.TargetInvertsWork | bcash/BRBCashParams.c:155-164 | at scales of 5 and more, the target before the cap is canonical; it is at most 2^256 divided by the work per ten minutes less two units, and one more in its last place is at least the quotient |
| CashTarget.TargetAtAnyScale | bcash/BRBCashParams.c:155-165 | at every scale the mantissa is the quotient of 2^64 by the work per ten minutes, shifted by as many bytes as the size was raised, within two units of work and one of its own; it is never negative, and its size at least 1 |
| CashTarget.LowScaleIsUncapped | bcash/BRBCashParams.c:164-167 | at scales below 5 that is what is demanded, because the cap is out of reach |
| CashTarget.TargetIsCapped | bcash/BRBCashParams.c:162-166 | the target demanded is canonical, and as a number the smaller of that and the largest allowed |
| CashTarget.NoWorkToInvert | bcash/BRBCashParams.c:161-166 | with less than a unit of work per ten minutes the largest word is normalised instead |
| CashTarget.TargetInvertsExactWork | bcash/BRBCashParams.c:141-164 | end to end, the target inverts the exact sum of the works of the n walked blocks, within 2n units of the sum, two of the projection and one of its last place |
| CashRules.WorkInvertsTarget | bcash/BRBCashParams.c:144-151 | the work of a block is the largest number of units of its size whose product with the target stays below 2^256, and the fixed maximum for a zero target |
| CashRules.SpanExactly | bcash/BRBCashParams.c:137-139 | the time span is kept between half a day and two days |
| CashWork.MedianIsAncestor | bcash/BRBCashParams.c:104-114 | the median of three consecutive ancestors is one of them |
| CashRules.MedianExactly | bcash/BRBCashParams.c:104-114 | a median block is one of the three than which two are no later and two no earlier |
| CashRules.MedianAtExactly | bcash/BRBCashParams.c:104-114 | the three are the block at a distance and its two predecessors |
| CashWork.CashVerifyDifficulty | bcash/BRBCashParams.c:116-172 | below the fork height or with too few ancestors every block passes; otherwise the walk from the median of ancestors 1 to 3 reaches the median of ancestors 145 to 147, and the block passes iff its target is the one demanded for the work in between or one less |
| ChainTheorems.StepKeeps | bitcoin/BRPeerManager.c:1144-1416 | every relay that does not stop the manager keeps: tip stored, heights true, nothing stored after the tip; the tip stays or gives way to a strictly higher block |
| ChainTheorems.RunKeeps | bitcoin/BRPeerManager.c:1144-1416 | every sequence of relays, whatever arrives in whatever order, keeps the chain invariant and never lowers the tip, which moves only to a strictly higher block |
| ChainProgress.TipMovesExactly | bitcoin/BRPeerManager.c:1263-1377 | when the tip gives way: if and only if a verified block is right on it, or a new fork block above the last checkpoint is higher than it and leaves no gap, or the peer has no more; and then to that block |
| ChainProgress.HandledExactly | bitcoin/BRPeerManager.c:1263-1377 | everything that becomes of a verified block in a step that does not stop: kept or dropped, blocks, orphans, tip and estimated height |
| ChainProgress.UnhandledExactly | bitcoin/BRPeerManager.c:1187-1262 | everything that becomes of any other relay: a recent block without a stored predecessor waits, all others are dropped |
| ChainProgress.TipExtends | bitcoin/BRPeerManager.c:1263-1270 | a verified block on the tip is kept and becomes the tip, one height up |
| ChainProgress.RowExtends | bitcoin/BRPeerManager.c:1144-1416 | any number of verified blocks in a row end at the last, as many heights up, and nothing stops |
| ChainProgress.TipReaches | bitcoin/BRPeerManager.c:1263-1377 | after a verified block the tip is at least as high as it, unless it waits, is on an old fork, or is a stored checkpoint right above the tip |
| ChainProgress.OrphanIsHandedBack | bitcoin/BRPeerManager.c:1380-1387 | a verified block that is kept hands back the orphan that waits for it, which waits no more; other orphans stay |
| ChainProgress.StoredWasHandled | bitcoin/BRPeerManager.c:1144-1387 | whatever a step stores was verified, and whatever goes was freed by verification |
| ChainProgress.CheckpointsHold | bitcoin/BRPeerManager.c:1121-1130 | a stored block at the height of a checkpoint is that checkpoint |
| ChainProgress.PrunedExactly | bitcoin/BRPeerManager.c:1089-1112 | what is freed: if and only if the block checked is at a transition, the ancestors more than 2016 below it that are at none |
| ChainFailures.StepFails | bitcoin/BRPeerManager.c:1287-1343 | an internal check stops the manager iff a verified block, not on the tip, is a known one below the end of the stored main chain, or outgrows the main chain on a branch that does not meet it in the set and reaches no further down |
| ChainProgress.StoppedExactly | bitcoin/BRPeerManager.c:1287-1343 | what a step that stops leaves: tip, orphans and estimated height as they were, and a new block already stored |
| ChainFailures.JoinMisses | bitcoin/BRPeerManager.c:1332-1343 | the two-pointer walk misses the new branch iff the branches do not meet and the new one ends no lower |
| ChainFailures.DownToMisses | bitcoin/BRPeerManager.c:1292-1297 | the walk down the main chain misses iff the chain ends above the height looked for |
| ChainFailures.StopsOnLaterCheckpoint | bitcoin/BRPeerManager.c:1332-1343 | a concrete chain and block on which the manager stops |
| ChainTheorems.NothingFollowsTip | bitcoin/BRPeerManager.c:1263-1377 | no stored block is a proper descendant of the tip at any distance |
| ChainTheorems.PruningKeeps | bitcoin/BRPeerManager.c:1089-1112 | pruning spares the tip, all transition blocks and the last 2016 ancestors |
| ChainTheorems.StaleHasSuccessor | bitcoin/BRPeerManager.c:1103-1111 | everything pruning removes has a stored successor |
| ChainTheorems.PlaceKeeps | bitcoin/BRPeerManager.c:1263-1377 | placing a verified block, in each of the six ways, keeps the invariant |
| ChainTheorems.OldTipIsLast | bitcoin/BRPeerManager.c:1287-1312 | re-relaying a stored checkpoint right above the tip keeps the tip last |
| Reorganisation.FindJoin | bitcoin/BRPeerManager.c:1332-1338 | the two-pointer walk computes the join of the specification |
| Reorganisation.JoinIsHighest | bitcoin/BRPeerManager.c:1332-1338 | if the branches meet anywhere in the set the walk stops at their highest common ancestor, and conversely |
| Reorganisation.ConfirmMatches | bitcoin/BRPeerManager.c:1270-1270 | registered matches get height and time, everything else stays |
| Reorganisation.ConfirmBranch | bitcoin/BRPeerManager.c:1348-1368 | each registered transaction ends with height and time of the lowest new-branch block that matches it |
| Reorganisation.ConfirmedSome | bitcoin/BRPeerManager.c:1348-1368 | the height and time given to a transaction are those of a branch block that matches it, no lower one matching |
| Reorganisation.ConfirmedNone | bitcoin/BRPeerManager.c:1348-1368 | a transaction gets no confirmation from the branch only if no block of it matches |
| Reorganisation.HighestMeans | bitcoin/BRWallet.c:1018-1018 | the wallet's height after a branch is taken on is the least bound of the join and the matching blocks |
| Reorganisation.Rebase | bitcoin/BRPeerManager.c:1346-1368 | un-confirming what is above the join and taking on the new branch, if the old one reaches the join |
| Reorganisation.Reorganise | bitcoin/BRPeerManager.c:1331-1376 | after a reorganisation matched transactions are at their new block, other ones formerly above the join are unconfirmed, the rest are unchanged, and the wallet is at the highest matching block or the join; without a meeting point only the un-confirming happens |
| WalletProgress.ExtensionConfirms | bitcoin/BRPeerManager.c:1263-1270 | a verified block on the tip puts the transactions it reports one above the old tip, at the mean time of both blocks, and leaves the others |
| WalletProgress.ReorganisationConfirms | bitcoin/BRPeerManager.c:1331-1376 | a change of branch moves the transactions that the new branch reports to the lowest block that does, un-confirms the others above the highest common ancestor, and leaves the rest |
| WalletProgress.StoredConfirms | bitcoin/BRPeerManager.c:1287-1312 | a stored block relayed again confirms what it reports if and only if it is on the main chain, and else changes nothing |
| WalletProgress.OthersTouchNothing | bitcoin/BRPeerManager.c:1187-1377 | no relay that leaves the tip touches the wallet, unless it is of a stored block |
| WalletProgress.RowConfirms | bitcoin/BRPeerManager.c:1144-1416 | over verified blocks in a row a transaction ends at the height of the last that reports it, or keeps its own |
| PeerManager.Manager.constructor | bitcoin/BRPeerManager.c:1536-1567 | creation establishes the chain invariant, with the checkpoints and all saved blocks in a row from the highest one at a transition, the last of them the tip; without such a block the tip is the last checkpoint old enough |
| PeerManager.Manager.CollectSaved | bitcoin/BRPeerManager.c:1552-1558 | the saved blocks are filed by predecessor, the last of several, and the highest at a transition is found |
| PeerManager.Manager.BuildChain | bitcoin/BRPeerManager.c:1560-1567 | from it each block filed under the last is added to the chain, until there is none; the loop ends |
| PeerManager.Manager.FreeOldBlocks | bitcoin/BRPeerManager.c:1103-1111 | the loop removes exactly the blocks below that are not at a transition |
| PeerManager.Manager.VerifyBlock | bitcoin/BRPeerManager.c:1082-1133 | prunes at transitions and accepts iff difficulty and checkpoint allow it |
| PeerManager.Manager.FindCheckpoint | bitcoin/BRPeerManager.c:1121-1130 | the lookup by height finds the checkpoint at that height |
| PeerManager.Manager.WalkDownTo | bitcoin/BRPeerManager.c:1292-1293 | the walk finds the main-chain block at or below a height |
| PeerManager.Manager.PlaceBlock | bitcoin/BRPeerManager.c:1263-1377 | extension, replacement, rescan orphan, old fork and new fork act on chain and wallet exactly as specified |
| PeerManager.Manager.AcceptBlock | bitcoin/BRPeerManager.c:1187-1377 | the decision on a relayed block refines the step function, and the wallet follows the chain |
| PeerManager.Manager.RelayOnce | bitcoin/BRPeerManager.c:1144-1387 | the locked section is one step of the specification; the orphan waiting for the block is taken out |
| PeerManager.Manager.RelayedBlock | bitcoin/BRPeerManager.c:1144-1416 | with orphan adoption the call is a run of steps along a chain of successors, through all of which the wallet follows the chain; the recursion terminates by true height |
| PeerManager.BlocksToSave | bitcoin/BRPeerManager.c:1391-1407 | the blocks saved end at the lowest transition collected, and the internal check never fails |
| ChainResume.TipIsRestored | bitcoin/BRPeerManager.c:1550-1567 | saving and starting again: from the tip and the blocks below it down to one at a transition, in any order, creation restores the tip |
| ChainResume.SavedIsRestored | bitcoin/BRPeerManager.c:1391-1407 | in particular from any arrangement of the blocks given out to be saved |
| SyncManager.ClientManager.constructor | bitcoin/BRSyncManager.c:852-861 | heights are ordered as minimum and maximum of checkpoint and given height |
| SyncManager.ClientManager.SetConnected | bitcoin/BRSyncManager.c:929-956 | refines the Connect step |
| SyncManager.ClientManager.Disconnect | bitcoin/BRSyncManager.c:959-999 | refines the Disconnect step: a full scan is stopped before the disconnection |
| SyncManager.ClientManager.Rewind | bitcoin/BRSyncManager.c:1002-1056 | refines the ScanToDepth step: the synced height moves back, never below the initial one |
| SyncManager.ClientManager.TakeRequestId | bitcoin/BRSyncManager.c:1448-1466 | a request takes the next id iff connected |
| SyncManager.ClientManager.UpdateTransactions | bitcoin/BRSyncManager.c:1371-1425 | refines the scan-starting step |
| SyncManager.ClientManager.InitScan | bitcoin/BRSyncManager.c:1474-1512 | the range is never empty, starts at or below the synced height, and never overflows |
| SyncManager.ClientManager.AnnounceGetBlockNumber | bitcoin/BRSyncManager.c:1113-1143 | the network height only moves up, and only when connected |
| SyncManager.ClientManager.AdvanceAndGetNewAddresses | bitcoin/BRSyncManager.c:1573-1603 | returns the addresses not yet requested if a first unused one changed, and then knows them |
| SyncManager.ClientManager.AnnounceGetTransactionsDone | bitcoin/BRSyncManager.c:1261-1347 | refines the completion step: requery, completion, failure, or nothing for another id |
| SyncManager.ClientManager.ConnectAndScan | bitcoin/BRSyncManager.c:929-956 | connecting is a run of three steps and leaves a scan in progress |
| SyncManager.ClientManager.ScanToDepthAndScan | bitcoin/BRSyncManager.c:1002-1063 | a depth scan of a connected manager starts at or below the depth asked for |
| SyncProtocol.StepCovers | bitcoin/BRSyncManager.c:1474-1512 | no step leaves a gap behind the synced height |
| SyncProtocol.StepAccounts | bitcoin/BRSyncManager.c:1261-1445 | the scan in progress has requested exactly its known addresses, all over one range; one that completes has requested all |
| SyncProgress.SyncedExactly | bitcoin/BRSyncManager.c:1261-1347 | the synced height after any step: one below the end of a scan it completes, the depth of a depth scan within bounds, and else as before |
| SyncProgress.StartExactly | bitcoin/BRSyncManager.c:1371-1512 | a scan starts if and only if connected and idle; its range, kind, request and event in numbers |
| SyncProgress.AnswerExactly | bitcoin/BRSyncManager.c:1261-1347 | an answer to a scan: ignored if it is for another, closing on failure, asking for the addresses not known yet, or completing |
| SyncProgress.ConnectedExactly | bitcoin/BRSyncManager.c:929-999 | what opens and closes the connection |
| SyncProgress.IdsExactly | bitcoin/BRSyncManager.c:1448-1466 | ids are handed out one after another, to scans that start and to other requests, only while connected |
| SyncProgress.ResetExactly | bitcoin/BRSyncManager.c:959-1056 | disconnecting and a depth scan end the scan in progress, with a stop event if it was a full one |
| SyncProgress.NetworkExactly | bitcoin/BRSyncManager.c:1113-1143 | the network height is the highest announced while connected, and each rise is reported |
| SyncProgress.NewExactly | bitcoin/BRSyncManager.c:852-861 | the lower of both heights is where syncing starts, the higher that of the network |
| SyncProtocol.StepKeepsValid | bitcoin/BRSyncManager.c:929-1603 | heights stay ordered, the network height never falls, a scan implies a connection, a full scan implies a scan |
| SyncTheorems.RunIsSound | bitcoin/BRSyncManager.c:852-1603 | in every interleaving: initial <= synced <= network height, every block in between was covered by a completed scan, each completed scan requested all its addresses over its range |
| SyncProgress.SyncedOverRun | bitcoin/BRSyncManager.c:1261-1347 | over every run without a depth scan the synced height is one below the end of the last completed scan, or where it began |
| SyncProgress.SyncedSinceRewind | bitcoin/BRSyncManager.c:1002-1056 | and over every run, of what follows the last depth scan |
| SyncProgress.CatchesUp | bitcoin/BRSyncManager.c:1261-1425 | from any idle connected state one scan, answered until no new address shows, ends with the synced height at that of the network |
| SyncTheorems.EventsFollowProtocol | bitcoin/BRWalletManager.c:2241-2382 | the events of every run, height updates erased, are a prefix of (CONNECTED (STARTED STOPPED)* DISCONNECTED)*, and consecutive ones satisfy the valid-pair relation, with or without height updates |
| SyncTheorems.GrammarIsValid | bitcoin/BRWalletManager.c:2241-2382 | the grammar implies the valid-pair relation |
| SyncTheorems.OldIdsAreIgnored | bitcoin/BRSyncManager.c:1275-1277 | completions that carry a nonzero id issued earlier, other than that of the scan in progress, change nothing, then or at any later time |
| Transactions.TransactionSize | bitcoin/BRTransaction.c:560-587 | the loops add up base and witness sizes |
| Transactions.TransactionVSize | bitcoin/BRTransaction.c:590-617 | witness bytes count a quarter, rounded up |
| TransactionVector.VSizeIsWeight | bitcoin/BRTransaction.c:590-617 | for signed transactions without 253 witness items it is a quarter of the weight of BIP 141, rounded up, in bytes actually written |
| CompactSize.VarIntRoundTrip | support/BRAddress.c:39-104 | reading inverts writing for all 64-bit values, whatever follows |
| CompactSize.VarIntLocal | support/BRAddress.c:39-67 | the value read depends only on the announced bytes |
| TransactionVector.CompactSizeLimits | support/BRAddress.c:69-104 | the bytes of the longest and shortest integers of each length |
| TransactionCodec.Serialize | bitcoin/BRTransaction.c:265-352 | the bytes written for the whole signed transaction are the BIP 144 form |
| TransactionCodec.CountItems | bitcoin/BRTransaction.c:333-336 | the walk counts the items of a witness |
| TransactionCodec.InputData | bitcoin/BRTransaction.c:111-131 | an input is written as previous output, whatever stands in its script position, the amount unless zero, and the sequence |
| TransactionCodec.InputInPlace | bitcoin/BRTransaction.c:285-301 | in a serialised transaction that is the signature, or script and amount for an input not signed yet |
| TransactionCodec.OutputData | bitcoin/BRTransaction.c:170-185 | all outputs, or the one at an index if there is one, are written as amount and script |
| TransactionParser.Parse | bitcoin/BRTransaction.c:397-495 | the offset-based parser computes the recursive specification on every buffer, malformed ones included |
| TransactionParser.ParseInput | bitcoin/BRTransaction.c:422-443 | one input is read, or the offset passes the end |
| TransactionParser.ParseSlot | bitcoin/BRTransaction.c:428-439 | a valid scriptPubKey is a script with an amount, anything else a signature |
| TransactionParser.ParseWitness | bitcoin/BRTransaction.c:459-471 | one witness is read by walking its items |
| TransactionParser.MeasureItems | bitcoin/BRTransaction.c:464-467 | the item loop measures the items in the buffer |
| TransactionParser.ParseHeader | bitcoin/BRTransaction.c:409-418 | count, marker and flag |
| TransactionTheorems.RoundTrip | bitcoin/BRTransaction.c:265-495 | parsing what was serialised, whatever follows, returns version, previous outputs, signatures, sequences, outputs, witnesses and lock time, and the hash of the witness-free form |
| TransactionCanonical.AcceptedIsSerialized | bitcoin/BRTransaction.c:397-495 | the other way: a buffer that parses is at least as long as what its result serialises to, and if as long it is the same, if and only if the flag byte of a transaction with witnesses is 1 |
| TransactionCanonical.MeasuredItems | bitcoin/BRTransaction.c:459-471 | what the parser measures as a number of witness items is a well-formed witness of that many |
| TransactionVector.SignedExample | bitcoin/BRTransaction.c:265-352 | the bytes of a signed transaction with a witness |
| TransactionVector.UnsignedExample | bitcoin/BRTransaction.c:265-352 | the bytes of an unsigned transaction, with script and amount of what it spends |
| TransactionTheorems.PreimageIsStripped | bitcoin/BRTransaction.c:480-492 | the bytes hashed for the txid are the serialisation with witnesses emptied |
| TransactionTheorems.SignedInputReads | bitcoin/BRTransaction.c:428-437 | a signed input reads back iff its signature is not itself a valid scriptPubKey |
| TransactionTheorems.ItemsReads | bitcoin/BRTransaction.c:459-471 | a well-formed witness is measured exactly, whatever follows it |
| TransactionTheorems.SizeIsLength | bitcoin/BRTransaction.c:560-587 | the computed size is the serialised length iff there are no witnesses or every input has fewer than 253 witness items, and else falls short |
| CashChecksum.PolymodLinear | bcash/BRBCashAddr.c:38-40 | the checksum step is linear over GF(2) |
| CashChecksum.PolymodInjective | bcash/BRBCashAddr.c:38-40 | the checksum step is injective on 40-bit values |
| CashField.StepMultiplies | bcash/BRBCashAddr.c:38-40 | a step multiplies by x modulo the generator polynomial of degree 8 over the field of 32 elements, coefficient by coefficient |
| CashField.CoefficientsDetermine | bcash/BRBCashAddr.c:38-40 | the eight coefficients are the whole state |
| CashChecksum.FoldLinear | bcash/BRBCashAddr.c:61-62 | the whole checksum is linear in state and symbols |
| CashChecksum.BurstsAreDetected | bcash/BRBCashAddr.c:78-86 | symbol strings of the same length with the same checksum that differ only within eight consecutive symbols are equal |
| CashChecksum.ChecksumVerifies | bcash/BRBCashAddr.c:126-128 | appending the checksum symbols makes the state 1, whatever came before |
| CashAddr.EncodeBytes | bcash/BRBCashAddr.c:117-124 | the 8-to-5-bit loop writes the 34 symbols of the bit string and folds them into the checksum |
| CashAddr.SymbolsOfTurn | bcash/BRBCashAddr.c:118-123 | which symbols each turn of the loop writes |
| CashAddr.RegroupRoundTrip | bcash/BRBCashAddr.c:80-123 | regrouping 21 bytes into symbols and back gives the same bytes |
| CashAddr.StoreStep | bcash/BRBCashAddr.c:80-82 | or-ing a symbol into the buffer changes exactly the bytes it spells |
| CashAddrText.Encode | bcash/BRBCashAddr.c:94-132 | refuses bad prefixes, else writes prefix, separator, payload and checksum |
| CashAddrText.Decode | bcash/BRBCashAddr.c:43-91 | computes prefix and bytes of exactly the accepted strings |
| CashAddrText.DecodeSymbols | bcash/BRBCashAddr.c:65-83 | the symbol loop collects values, checksum state and payload bytes |
| CashAddrText.FindSeparator | bcash/BRBCashAddr.c:59-59 | the last separator, or position zero |
| CashAddrText.RoundTrip | bcash/BRBCashAddr.c:43-132 | for every prefix of at most 11 printable characters without upper case and all 21 bytes, decoding the encoding returns both |
| CashAddrCase.CaseIsIgnored | bcash/BRBCashAddr.c:53-63 | a string with letters of both cases is refused, any other decodes to the same as its letters in upper case |
| CashAddrCase.CharactersExactly | bcash/BRBCashAddr.c:53-54 | the characters an accepted string, and a prefix that can be encoded, may have |
| CashAddrVector.VectorIsEncoded | bitcoin/test.c:373-373 | the address of the cashaddr specification that the repository's tests use, from its 21 bytes |
| CashAddrVector.AlphabetIs | bcash/BRBCashAddr.c:96-96 | the letters of the 32 symbols |
| CashAddrText.ErrorsAreDetected | bcash/BRBCashAddr.c:43-91 | two accepted strings with the same prefix and length never differ only within eight consecutive symbols, in particular not in one |
| CashAddrText.PaddingIsIgnored | bcash/BRBCashAddr.c:79-89 | the bytes of 34 symbols do not depend on the last two bits |
| CashAddrCanonical.AcceptedIsEncoded | bcash/BRBCashAddr.c:43-132 | an accepted string is, apart from its case, the encoding of what it decodes to iff a separator stands at its place, 42 symbols follow it, and the two low bits of the 34th are zero |
| CashAddrCanonical.RegroupBack | bcash/BRBCashAddr.c:80-123 | 34 symbols are those of the 21 bytes they spell iff the two bits left over are zero |
| CashAddrCanonical.ChecksumIsUnique | bcash/BRBCashAddr.c:126-128 | only one checksum closes a payload |
| CashAddrCanonical.AnySymbolsDecode | bcash/BRBCashAddr.c:59-86 | any 33 or 34 symbols with their checksum are accepted after a good prefix |
| CashAddrCanonical.PaddedDecodes | bcash/BRBCashAddr.c:79-89 | with padding bits set a second string decodes to the same prefix and bytes |
| CashAddrCanonical.ShortDecodes | bcash/BRBCashAddr.c:85-86 | 33 symbols are taken for 21 bytes |
| CashAddrCanonical.NoSeparatorDecodes | bcash/BRBCashAddr.c:59-63 | without a separator the first character, whatever it is, is skipped |
| ProtoBuf.VarIntRoundTrip | bitcoin/BRPaymentProtocol.c:45-70 | reading inverts writing on all 64-bit values and moves by as many bytes |
| ProtoBuf.AtMostTen | bitcoin/BRPaymentProtocol.c:59-70 | a 64-bit value takes at most ten bytes |
| ProtoBuf.ReadVarIntAt | bitcoin/BRPaymentProtocol.c:45-57 | the loop computes value and cursor of the specification: zero if the buffer ends early, and no value if more than ten bytes would shift past the word or the bytes are not in memory |
| PaymentVector.UnreadExactly | bitcoin/BRPaymentProtocol.c:45-57 | an integer cannot be read if and only if none of the first ten bytes ends it and there is an eleventh, or more is promised than there is memory |
| PaymentVector.CutIsZero | bitcoin/BRPaymentProtocol.c:45-57 | an integer that is read ends at its first byte without the high bit; one that the buffer cuts off is zero |
| PaymentVector.DataExactly | bitcoin/BRPaymentProtocol.c:72-82 | the data of a field: NULL if and only if there is no buffer or they run past its length by a 64-bit sum, and which bytes they are if whole |
| PaymentVector.FixedExactly | bitcoin/BRPaymentProtocol.c:92-101 | integers of four and eight bytes: their bytes, zero past the length, unreadable past the memory |
| ProtoBuf.SetVarInt | bitcoin/BRPaymentProtocol.c:59-70 | writes the value as far as there is room and moves the cursor the same way if there is no buffer |
| ProtoBuf.SetBytes | bitcoin/BRPaymentProtocol.c:155-160 | writes the key, length and bytes of a field if there is room and moves the cursor the same way in any case |
| ProtoBuf.SetInt | bitcoin/BRPaymentProtocol.c:162-166 | writes the key and value of an integer field if there is room and moves the cursor the same way in any case |
| ProtoBuf.ReadFieldAt | bitcoin/BRPaymentProtocol.c:72-124 | reads key and value of any wire type from memory that may be NULL or shorter than promised, with 64-bit offsets that wrap |
| ProtoBuf.WireReads | bitcoin/BRPaymentProtocol.c:45-124 | a field of any kind, written anywhere in a buffer, reads back with key, value and the offset behind it |
| ProtoBuf.ListReads | bitcoin/BRPaymentProtocol.c:45-124 | the fields of a list read back one after the other |
| ProtoBuf.EncodedInjective | bitcoin/BRPaymentProtocol.c:45-124 | a list of fields is determined by its bytes |
| OffsetLoops.Decided | bitcoin/BRPaymentProtocol.c:190-196 | a loop whose offsets may go back is left iff it is left within as many turns as its bound, because on the way out no offset comes twice, and then in the same state |
| OffsetLoops.Circles | bitcoin/BRPaymentProtocol.c:298-308 | a loop whose turns lead back to the same offset is never left |
| FieldLoops.FieldsDecided | bitcoin/BRPaymentProtocol.c:298-308 | so a loop that reads one field a turn is left iff it is left within as many fields as the buffer has bytes |
| FieldLoops.FieldsFold | bitcoin/BRPaymentProtocol.c:298-308 | over the bytes of a list such a loop goes through its fields in order |
| FieldLoops.MovesOnEnds | bitcoin/BRPaymentProtocol.c:298-308 | where no length wraps such a loop is left, unless dealing with one of the fields does not come back |
| UnknownFields.Pack | bitcoin/BRPaymentProtocol.c:168-186 | the scratch buffer holds the copy of the specification, cut off where it is too small |
| UnknownFields.PackedExactly | bitcoin/BRPaymentProtocol.c:168-186 | the copy is the field itself iff its header fits ten bytes |
| PaymentVector.FixedCopy | bitcoin/BRPaymentProtocol.c:168-186 | the copy of a field of four or eight bytes for every key, cut or lost as its key is longer |
| PaymentVector.DataCopy | bitcoin/BRPaymentProtocol.c:168-186 | likewise of a string of bytes that is all there |
| UnknownFields.StoreUnknown | bitcoin/BRPaymentProtocol.c:168-200 | the copy is made, the loop finds its place in the array of copies, and it is inserted there |
| UnknownFields.StoreDecided | bitcoin/BRPaymentProtocol.c:188-196 | the loop over the array of copies is left iff it is left within as many turns as the array has bytes |
| UnknownFields.StoreEncoded | bitcoin/BRPaymentProtocol.c:188-198 | in an array of fields the loop is left and the copy goes where the list of fields with a new one has it |
| UnknownFields.WithReplaces | bitcoin/BRPaymentProtocol.c:194-194 | in ascending order a field whose key is there takes the place of the old one and nothing else changes |
| UnknownFields.WithConserves | bitcoin/BRPaymentProtocol.c:190-198 | a field whose key is new is added and nothing is lost |
| UnknownFields.WithAscends | bitcoin/BRPaymentProtocol.c:190-198 | ascending order is kept iff the new key is not above all others |
| UnknownFields.RearrangedConserves | bitcoin/BRPaymentProtocol.c:190-198 | storing fields of different keys one after the other loses none |
| UnknownFields.RearrangedOrder | bitcoin/BRPaymentProtocol.c:190-198 | but keeps their order iff there is at most one |
| UnknownFields.OrderExample | bitcoin/BRPaymentProtocol.c:190-198 | fields 7, 8, 9 end as 8, 9, 7 |
| PaymentProtocol.SerializeOutput | bitcoin/BRPaymentProtocol.c:320-337 | the sizing pass equals the bytes written, copies of unknown fields included; too small a buffer gives zero |
| PaymentProtocol.SerializeDetails | bitcoin/BRPaymentProtocol.c:436-469 | the sizing pass equals the bytes written for details, with each output measured and then written, and copies of unknown fields at the end; too small a buffer gives zero |
| PaymentVector.ExampleBytes | bitcoin/BRPaymentProtocol.c:436-469 | the bytes of details with every field |
| PaymentVector.CStringExactly | bitcoin/BRPaymentProtocol.c:136-142 | what is written of a string is all before its first zero byte |
| PaymentVector.NewBytes | bitcoin/BRPaymentProtocol.c:352-386 | without a network the details are for the main one and the field is left out |
| PaymentProtocol.ParseOutput | bitcoin/BRPaymentProtocol.c:287-318 | the loop computes the specification on every buffer and every length promised, with 64-bit offsets and copies of unknown fields, and has no result where the source does not come back |
| PaymentProtocol.ParseDetails | bitcoin/BRPaymentProtocol.c:390-433 | likewise for the details with their nested outputs |
| PaymentVector.TextExactly | bitcoin/BRPaymentProtocol.c:126-153 | a string is replaced by the bytes of its field if all are there, by nothing if its length is zero, and not at all if the length runs past the buffer |
| PaymentLoops.EndsExactly | bitcoin/BRPaymentProtocol.c:390-433 | for every buffer the details loop comes to an end iff it does so within as many fields as the buffer has bytes, and then with the details of the specification |
| PaymentLoops.OutputEndsExactly | bitcoin/BRPaymentProtocol.c:287-308 | the same for the output loop, for every buffer and every length promised |
| PaymentLoops.PlainEndsExactly | bitcoin/BRPaymentProtocol.c:287-433 | if no length wraps and every unknown field fits its copy, parsing comes to an end iff no outputs field comes up without data |
| PaymentLoops.PlainOutput | bitcoin/BRPaymentProtocol.c:298-308 | on such a buffer the output loop comes to an end |
| PaymentLoops.NullNeverEnds | bitcoin/BRPaymentProtocol.c:298-308 | on NULL with a positive length the output loop reads key 0 and never ends |
| PaymentLoops.WrappedTimeNeverEnds | bitcoin/BRPaymentProtocol.c:405-412 | a time or an expiry of wire type 2 with length 2^64 - 11 at the start leads back to it for ever, whatever follows |
| PaymentLoops.WrappedAmountNeverEnds | bitcoin/BRPaymentProtocol.c:298-304 | an amount of that kind does so in an output |
| PaymentLoops.WrappedTimeExample | bitcoin/BRPaymentProtocol.c:405-412 | parsing never ends on these eleven bytes, which hold no outputs field |
| PaymentLoops.WrappedAmountExample | bitcoin/BRPaymentProtocol.c:298-304 | nor on thirteen bytes that hold an output with such an amount |
| PaymentLoops.StoreNeverEnds | bitcoin/BRPaymentProtocol.c:190-196 | a 64-bit integer cut off in front of field 9 makes storing any greater key run in circles |
| PaymentLoops.UnknownNeverEnds | bitcoin/BRPaymentProtocol.c:188-196 | three well-formed unknown fields on which parsing never ends |
| PaymentLoops.IntegerOutputNeverEnds | bitcoin/BRPaymentProtocol.c:298-301 | parsing never ends on 0x10 0x00, an outputs field written as an integer |
| PaymentLoops.UnknownFieldEnds | bitcoin/BRPaymentProtocol.c:298-308 | parsing comes to an end on 0x12 0x02 0x18 0x00, an output with an unknown field |
| PaymentRoundTrip.OutputRoundTrip | bitcoin/BRPaymentProtocol.c:287-337 | an output reads back with amount, script and flag, and its unknown fields as if stored one after the other |
| PaymentRoundTrip.RoundTrip | bitcoin/BRPaymentProtocol.c:390-469 | parsing serialised details returns every field, nested output and defaulted flag, and the unknown fields as if stored one after the other |
| PaymentRoundTrip.RoundTripIsExact | bitcoin/BRPaymentProtocol.c:390-469 | what comes back is what was written iff no part had more than one unknown field |
| PaymentRoundTrip.NewRoundTrip | bitcoin/BRPaymentProtocol.c:352-386 | details made from given values read back as those values, with "main" for an absent network |

## Left out

Statements weaker than the source's full range:

- CoinSelection.CreateTx: amounts and fees are unbounded, so a 64-bit wrap is not captured; attempts after an oversize transaction are bounded by a fuel parameter, because the adjusted amount need not fall; the balance and coins are not read again between attempts, and the change script is passed in; an attempt left without outputs fails here, where the source would break its own assertion.
- CoinSelection.SelectCoins: amounts are unbounded, as above.
- CoinSelection.FeeGrows: the product of size and rate is unbounded, as above.
- CoinFees.FeeIsAtRate: likewise.
- CoinFees.MinAmountIsAtRate: likewise.
- CoinFees.CreatedPays: likewise.
- CoinTheorems.MaxOutputAmount: amounts are unbounded, as above.
- BalanceMoves.AcceptedMoves: pending transactions before it are excluded, and spenders of its outputs; `UtxoMeaning` says what they do.
- MerkleProof.CeilLog2: arguments below 2^31 are those of the source; on others, negative as an int, its loop never ends (`CeilLog2Ends`).
- Difficulty.VerifyDifficulty: previous targets with a size byte of 0x7f or more, where `size << 24` leaves the int range, are excluded.
- Difficulty.MainNetVerifyDifficulty: a predecessor with such a target is excluded.
- Difficulty.TargetBytes: targets of size 0x20 and above, which the source writes past its 32 bytes, are excluded.
- Difficulty.ProofOfWorkIsValid: excludes them likewise.
- WalletLedger.SetTxUnconfirmedAfter: a height above `TX_UNCONFIRMED` is excluded if some transaction is above even that, because un-confirming would then lower it below others.
- SyncManager.ClientManager.AnnounceGetTransactionsDone: a completion with request id zero is excluded; between scans it would reach a scan state without addresses.
- SyncManager.ClientManager.TakeRequestId: ids do not wrap at the width of an int.
- SyncManager.ClientManager.InitScan: a network height of 2^64 - 1, the marker for "unbound", is excluded; one more than it would wrap.
- SyncProtocol.StepKeepsValid: neither that height nor a completion with id zero is announced.
- SyncProtocol.StepCovers: likewise.
- SyncProtocol.StepAccounts: likewise.
- SyncProgress.SyncedExactly: likewise.
- SyncProgress.AnswerExactly: a completion with id zero is excluded.
- SyncProgress.SyncedOverRun: neither that height nor a completion with id zero is announced.
- SyncTheorems.RunIsSound: likewise.
- SyncTheorems.EventsFollowProtocol: likewise.
- CashTarget.TargetInvertsWork: scales below 5, which take a walked block with a target of five bytes or fewer, are excluded; `TargetAtAnyScale` covers them on the mantissa.
- CashTarget.TargetIsCapped: likewise; `LowScaleIsUncapped` covers them.
- CashTarget.TargetInvertsExactWork: likewise.
- TargetSchedule.AcceptsExactly: at a transition, previous targets that are not canonical, have fewer than four bytes or are above the largest are excluded; `RetargetExact` says when the retarget misses its form.
- TargetSchedule.TargetOfPeriod: likewise.
- CashRules.WorkInvertsTarget: targets of fewer than three bytes, of which only part of the mantissa counts, are excluded.
- WalletProgress.ReorganisationConfirms: branches that do not meet among the stored blocks are excluded; `JoinMisses` says when that is.
- TransactionCanonical.AcceptedIsSerialized: of a buffer with bytes left over only its length is spoken of, because the parser does not tell how many it used.
- TransactionVector.VSizeIsWeight: an input with 253 witness items or more is excluded; `SizeIsLength` says what happens then.
- PaymentVector.DataCopy: lengths that wrap, or are more than there is room for, are excluded.
- TransactionParser.Parse: offsets do not wrap at the width of `size_t`.
- TransactionParser.ParseInput: likewise.
- TransactionParser.ParseSlot: likewise; a length near 2^64 would wrap the source's test of the bound.
- TransactionParser.ParseWitness: likewise.
- TransactionParser.MeasureItems: likewise.
- TransactionCodec.Serialize: the bytes are returned as a sequence; buffers too small for them are not modelled.
- UnknownFields.Pack: a copy that would keep bytes the scratch buffer never got, which takes a header of more than ten bytes, counts as not coming back; the source goes on with what the memory held.  `malloc` finds memory up to a parameter.
- PaymentLoops.EndsExactly: likewise, and so does a read outside the buffer, an integer of more than ten bytes, which shifts past the word, or a failing assertion; the copies made of strings and scripts find memory.
- PaymentLoops.PlainEndsExactly: buffers of a tenth of the address space and more are excluded.
- WalletCache.CacheHolds: the condition is sufficient; that it is not met does not make the cached balance wrong.
- CashAddrText.Encode: prefixes longer than 11 characters, which do not fit the 55 bytes of the result, are excluded.

Not modelled:

- Sockets, threads, mutexes, DNS, timers and message framing (`bitcoin/BRPeer.c`), and the peer list, pings, bloom filters, download estimates and timeouts of the peer manager.
- The rescan entry points of the peer manager, which move the tip back arbitrarily; the floating-point false-positive rate; sync progress.
- `lastOrphan` and the requests sent for missing blocks; writing saved blocks to storage (which blocks are saved is modelled).
- The peer-based sync manager of `bitcoin/BRSyncManager.c`, and what announced transactions and submissions do to the wallet there.
- Callbacks to the user of the library.
- Ownership and freeing of transactions and blocks, and aliasing between sets of them: blocks and transactions are values, sets are maps.
- The witness hash `wtxHash`, hash types other than SIGHASH_ALL, BIP 143 pre-images and signing.
- Base58 and the address wrappers of cashaddr; payment requests, payments and acknowledgements around payment details; certificates.
- Checkpoint lookups of `bitcoin/BRChainParams.c` other than those the peer manager makes.
- `bitcoin/BRBIP38Key.c`, `bitcoin/BRBloomFilter.c` and the `crypto` wrappers: no state worth an invariant, or cryptography that is not part of this model.
- The wallet manager's plumbing, the sweeper, fiat conversion, and the file service.

# Chain-state verification

A Dafny model of the chain-state code of a MultiChain node, with proofs of what keeps that state
together: coins and undo data, the memory pool, the block tree and the active chain, partial Merkle
proofs, the verification queue, the fee estimates and the planning of downloads.

`dafny verify dfyconfig.toml` checks everything.

## How it is built

Where the code changes things step by step, the model has a class or a method with loops; each is
proved against a function on values, and the laws are proved about these functions.

| files | what they model |
|---|---|
| `Coins`, `CoinsExact` | unspent records, spending, undo data, taking a block back; what a clean result is worth |
| `Rules`, `RulesExact` | validity of blocks and the money supply; exactly which spends and blocks are accepted |
| `CoinsCache` | the cache layers over the coin database |
| `UndoRecord`, `CoinRecord` | undo records and coin records on disk |
| `UndoDisk`, `WornRules` | taking blocks back with undo data and coins that have been to the disk |
| `CoinsView` | the coin view as an object: connecting and disconnecting blocks |
| `Mempool`, `PoolCheck`, `TxMemPool` | the pool as a value, its self-check, and the pool as an object with index and size |
| `PoolExact`, `PoolReturn` | exactly what a block takes out of the pool, and what comes back when it is taken off |
| `TxNames`, `PoolFunds` | one txid, one transaction; every pooled transaction can be paid for in the next block |
| `ChainRuns`, `ChainReach` | whole runs of a node, over values: path independence, pool consistency, supply bound; which chains are reached |
| `Activation` | the chain state as objects: `ConnectTip`, `DisconnectTip`, `ActivateBestChainStep` |
| `BlockTree`, `Chain` | block index entries, skip pointers, common ancestors, the active chain, locators |
| `BlockLinks`, `BlockStore` | linking of blocks whose data arrives in any order, and the rebuild at start-up |
| `MedianTime`, `FeeEstimator`, `Sorting` | median time past, fee and priority estimates |
| `Download` | which blocks to request from a peer |
| `MerkleSpec`, `MerkleComplete`, `MerkleSize`, `MerkleBlock` | BIP 37 partial Merkle trees: soundness, completeness, sizes, the object |
| `CheckQueueSpec`, `CheckQueueProof`, `CheckQueue` | the verification queue as a concurrent protocol, its critical sections, and its controller |
| `MerkleTree` | the full Merkle tree of a block, and the check for mutated lists |
| `MapSum`, `Sequences`, `Shifts` | sums over maps, sequences, shifts |

## What is assumed

- A txid, and a block hash, names one thing (`NoCollision`, `BlockNamed`, `Bodies`), and the pair hash
  of the Merkle tree is injective. A transaction cannot depend on itself (`Ranked`, for the pool's self-check only).
- A block that is connected overwrites no live txid (BIP 30, section "Specification"). Where the code
  checks this, `Bip30NoOverwrites` derives it; for the multichain protocol the check is skipped.
  `DisconnectRestoresIff` shows that the assumption is exactly what the round trip needs.
- Heights are below 2^31, as the code keeps them in an `int`.
- Scripts, permissions, assets, policy limits, disk reads and the choice of random samples are
  parameters: a step may fail or succeed for reasons outside the model, and the laws hold either way.
- No block is marked invalid while data arrives (`NoneFailed`), and all branches share one genesis block.

## Where the code and its documentation differ

- `src/chain/merkleblock.h:48` promises at most 2N-1 flag bits for N hashes. This is false for ragged
  trees; `DocumentedBitBoundIff` gives the exact condition, and `EncodedSize` a bound that holds.
- `ExtractMatches` answers 0 on failure, which a root of 0 cannot be told from: `SoundnessIff`.
- The header of partial Merkle trees also guarantees a size of 10 + ceil(32.25 N) bytes, which is exceeded,
  for example, with 1025 matched txids (`GuaranteedSizeFails`); `GuaranteedSizeIff` gives the exact condition.
- `src/utils/serialize.h:278` gives three bytes for 16511, which stand for another number
  (`DocumentedExampleFails`); `VarIntIs` and `VarIntSizes` state the format.
- The controller of the verification queue promises a finished queue; `Add` after `Wait` is not awaited
  (`AddAfterWaitBreaksNext`). `NextControlIff` gives the exact condition, by the client's own calls: the
  next controller finds an idle queue under every schedule if and only if the client has added no check
  since its last `Wait`. `AddAfterWaitIff` states it for one addition.
- A negative transaction version does not survive the disk, neither in an undo record nor in a coin
  record (`src/core/main.cpp:2132-2134` says so of the latter): `DiskRoundTripIff` gives the exact
  condition for one block. The runs of `ChainRuns` and `Activation` write undo data and read it back,
  and may read back any coin at any time; so their results are stated up to negative versions.
  `DeterminedIff` says when they are exact.
- `CMinerPolicyEstimator::Read` leaves its caches alone: `FeesRightIff` and `PrioritiesRightIff` give
  the exact condition under which estimates are right afterwards; the next block repairs them (`SeenBlock`).

## Model

| member | source | states |
|---|---|---|
| `Coins.Trim` | src/storage/coins.h:113-118 | Cleanup keeps a prefix of the outputs, drops only spent ones, and leaves no spent output at the end |
| `Coins.SpendThenRestore` | src/storage/coins.cpp:36-50 | the undo record that Spend writes, with metadata only for the last unspent output, restores the exact earlier view, and no consistency check of the roll-back complains |
| `Coins.AvailableAfterSpendAll` | src/core/main.cpp:1920-1927 | after spending a list of inputs an output is available exactly if it was before and is not among them |
| `Coins.SpendAllThenRestore` | src/core/main.cpp:2144-2171 | the inputs of a transaction, restored last to first, give back the view from before, slots, trimming and metadata included |
| `Coins.AvailableAfterApply` | src/core/main.cpp:1917-1932 | which outputs are available after UpdateCoins: the transaction's own spendable ones, and all others but its inputs |
| `Coins.ApplyThenUnapply` | src/core/main.cpp:2118-2172 | taking back one transaction that overwrote no live txid restores the exact earlier view and reports nothing unclean |
| `Coins.OverwriteIsLost` | src/core/main.cpp:2140-2142 | a transaction that overwrote a live txid is not undone, whatever undo data is used: an output that was available before is gone |
| `Coins.RepeatedCoinbaseIsLost` | src/core/main.cpp:1929-1931 | such blocks exist: a coinbase repeated while still unspent can be connected, and taking it back loses it |
| `Coins.DisconnectRestoresIff` | src/core/main.cpp:2098-2183 | DisconnectBlock, given the undo data as the block left it, restores the exact earlier view and reports a clean result if and only if no transaction of the block overwrote a live txid; spending inside the block is covered |
| `CoinsExact.CoinbaseIs` | src/primitives/transaction.h:263-266 | a transaction is a coinbase exactly when its one input names no output |
| `CoinsExact.OutputsAfterApply` | src/core/main.cpp:1917-1932 | every output available after UpdateCoins is either a spendable one of the transaction, in its place, in a record that tells its kind, height and version, or an old one not spent, its record otherwise unchanged |
| `CoinsExact.OutputsThere` | src/core/main.cpp:1928-1931 | and every spendable output of the transaction is available |
| `CoinsExact.RestoreCleanIff` | src/core/main.cpp:2147-2170 | for undo data of any kind, putting one output back passes the checks if and only if it leads to well-formed coins from which spending the output leads back |
| `CoinsExact.CleanRestoreSpends` | src/core/main.cpp:2144-2171 | inputs whose roll-back passes all checks are there, and spending them again gives the coins from before |
| `CoinsExact.OutputsMatchIff` | src/core/main.cpp:2122-2138 | the check of a transaction's outputs passes if and only if the coins hold under its txid exactly what it writes there |
| `CoinsExact.CleanUnapplyReapplies` | src/core/main.cpp:2118-2171 | a transaction whose roll-back passes all checks is connected again with the same result |
| `CoinsExact.CleanDisconnectReconnects` | src/core/main.cpp:2098-2183 | when DisconnectBlock reports a clean result, for undo data of any kind, connecting the block again gives exactly the coins from before: nothing inconsistent passes |
| `CoinsCaches.FetchKeeps` | src/storage/coins.cpp:83-98 | pulling a record up through the cache layers changes what no layer shows |
| `CoinsCaches.ModifyRefines` | src/storage/coins.cpp:109-128 | a modification of the top cache, with its fresh and dirty flags and the clean-up of the modifier, is the modification of the flat view, and the layers below still show what they did |
| `CoinsCaches.GoodMeansFresh` | src/storage/coins.cpp:158-172 | the assertion in BatchWrite never fails: a dirty record the cache below does not know is marked fresh |
| `CoinsCaches.BatchWrite` | src/storage/coins.cpp:158-207 | the loop writes each dirty entry of the child, erases fresh entries that have become empty, and leaves all other entries alone |
| `CoinsCaches.FlushToCache` | src/storage/coins.cpp:209-213 | after a flush the cache below shows exactly what the upper one showed, and its flags are right with respect to the layer below it |
| `CoinsCaches.FlushToDisk` | src/storage/txdb.cpp:57-75 | after a flush the database holds exactly the records the cache showed, none of them empty |
| `CoinsCaches.ScratchRefines` | src/core/main.cpp:2836-2848 | a scratch cache, after any sequence of lookups and modifications, shows what a flat view would; the layers below still show what they did, so it can be thrown away |
| `UndoRecords.VarIntReadBack` | src/utils/serialize.h:313-326 | a number of machine size is read back from its variable-length encoding, and reading stops right behind it |
| `UndoRecords.VarIntOnto` | src/utils/serialize.h:268-273 | no redundancy: every terminated sequence of digits is the encoding of exactly one number |
| `UndoRecords.VarIntIs` | src/utils/serialize.h:263-267 | the bytes written for a number stand for it by the formula of the format |
| `UndoRecords.VarIntSizes` | src/utils/serialize.h:270 | one byte for numbers up to 127, two up to 16511, three up to 2113663 |
| `UndoRecords.DocumentedExampleFails` | src/utils/serialize.h:278 | 16511 is written as FF 7F; the bytes 80 FF 7F of the comment stand for 32895 |
| `UndoRecords.WriteVarInt` | src/utils/serialize.h:296-311 | the two loops write the encoding, most significant digit first |
| `UndoRecords.ReadVarInt` | src/utils/serialize.h:313-326 | the loop reads one number, in words of 32 bits |
| `UndoRecords.InUndo.Serialize` | src/chain/undo.h:37-43 | writes height and coinbase flag as one number, the version only with a height, then the output |
| `UndoRecords.InUndo.Unserialize` | src/chain/undo.h:45-54 | assigns the fields of a new record from the stream, and fails exactly when the stream does not hold a record |
| `UndoRecords.UndoSurvivesIff` | src/chain/undo.h:37-54 | a record written and read back is unchanged if and only if its height is below 2^31 and its version is not negative (or 0, without a height) |
| `UndoRecords.ReadBackWorn` | src/chain/undo.h:37-54 | every record comes back from the disk with its output, height and flag, and with its version, of which a negative one keeps its lowest seven bits only |
| `UndoDisk.UndoReadBack` | src/core/main.cpp:2107-2114 | the undo data of a block reads back whole, but for those versions |
| `UndoDisk.ApplyAllWorn` | src/core/main.cpp:1917-1932 | a block can be connected on coins that have been to the disk exactly when it can on the coins as they were, with the same coins and the same undo data on file, up to versions |
| `UndoDisk.UnapplyAllWorn` | src/core/main.cpp:2116-2172 | a clean roll-back stays clean with undo data and coins from the disk, and differs in versions only |
| `UndoDisk.WornBlockIs` | src/core/main.cpp:2150-2155 | the records restored from the disk are exactly those that the block had spent up |
| `UndoDisk.DisconnectWorn` | src/core/main.cpp:2098-2183 | DisconnectBlock, on coins and with undo data that have been to the disk, is clean and restores the earlier coins, of which those the block spent up have a worn version |
| `UndoDisk.DiskRoundTripIff` | src/core/main.cpp:2098-2183 | with the undo data read back from its file, the exact earlier coins are restored and the result is clean if and only if the block overwrote no live txid and spent up no coin of a transaction with a negative version |
| `UndoDisk.NegativeVersionIsLost` | src/core/main.cpp:2132-2134 | an input that fails: a block that spends the only output of a transaction of version -1 is taken back with another version |
| `CoinRecords.CalcMaskSize` | src/storage/coins.cpp:18-35 | the loops count the bytes of the availability mask, and those that are not zero |
| `CoinRecords.MaskReadBack` | src/storage/coins.h:219-229 | reading up to the given number of non-zero bytes recovers the whole mask |
| `CoinRecords.MaskIs` | src/storage/coins.h:178-205 | bit p of byte b of the mask, lowest first, tells whether output 2 + 8b + p is unspent |
| `CoinRecords.CoinCodeIs` | src/storage/coins.h:30-36 | the code's bits tell of the coinbase and of the first two outputs, and the rest counts the bytes of the mask that are not zero, less one when both first outputs are spent |
| `CoinRecords.CoinReadBack` | src/storage/coins.h:178-239 | a coin record written to the database comes back with the same outputs in the same slots, the same height and flag, and a worn version |
| `CoinRecords.ReloadIs` | src/storage/txdb.cpp:57-75 | coins that are flushed and read back are the worn coins that the runs allow for |
| `CoinsViews.Cleanup` | src/storage/coins.h:113-118 | the loop computes Trim |
| `CoinsViews.CoinsView.Modify` | src/storage/coins.cpp:284-292 | the end of a modification stores the trimmed record, or forgets it when nothing is left |
| `CoinsViews.CoinsView.Spend` | src/storage/coins.cpp:36-50 | fails, changing nothing, on a missing output; otherwise spends it and yields the undo record |
| `CoinsViews.CoinsView.SpendInputs` | src/core/main.cpp:1920-1927 | spends all inputs in order and collects their undo records; no spend fails |
| `CoinsViews.CoinsView.UpdateCoins` | src/core/main.cpp:1917-1932 | the new view is Apply of the old one, and the undo data is that of the transaction on the old one |
| `CoinsViews.CoinsView.RestoreInput` | src/core/main.cpp:2150-2169 | one undo record is put back, with exactly the three complaints of the code |
| `CoinsViews.CoinsView.DisconnectBlock` | src/core/main.cpp:2098-2183 | computes Disconnect, the function the round trip is proved about; inconsistent undo data is reported as such |
| `CoinsViews.CoinsView.CheckTxInputs` | src/core/main.cpp:1946-2043 | accepts exactly when all inputs are available, coinbases are mature, and all amounts, running sums and the fee are in range |
| `CoinsViews.CoinsView.ApplyTransactions` | src/core/main.cpp:2421-2506 | the transaction loop accepts exactly the blocks all of whose transactions are valid in turn, and then yields their view, fees and undo data |
| `CoinsViews.CoinsView.ConnectBlock` | src/core/main.cpp:2223-2614 | accepts exactly the valid blocks, and then leaves the view with all transactions applied and the block's undo data |
| `Rules.Bip30NoOverwrites` | src/core/main.cpp:2365-2391 | the BIP 30 check at the start of a block, where it is made, rules out overwriting when the block's own txids differ |
| `Rules.SupplyApply` | src/core/main.cpp:1917-1932 | one transaction raises the total of unspent outputs by at most its outputs less its inputs |
| `Rules.SupplyPerBlock` | src/core/main.cpp:2540-2544 | a connected block raises the total of unspent outputs by at most its subsidy |
| `Rules.TotalSubsidyBound` | src/core/main.cpp:1726-1750 | all subsidies up to any height come to at most the first reward plus two full halving periods of the initial reward |
| `RulesExact.SubsidyIs` | src/core/main.cpp:1726-1750 | the reward is the first or initial reward divided by two to the number of full intervals, rounded down, and 0 from 64 halvings on |
| `RulesExact.InRangeIff` | src/core/main.cpp:1980-1990 | checking every input and every running total comes to checking every input and the total |
| `RulesExact.CheckInputsIff` | src/core/main.cpp:1946-2004 | a transaction is accepted if and only if each input is there, unspent and mature, no amount nor the total is out of range, and, with a native currency, it pays out no more than it spends |
| `RulesExact.TxsValidIff` | src/core/main.cpp:2450-2530 | the transactions of a block are valid if and only if each has its inputs and passes on the coins that those before it have left |
| `RulesExact.FeesAre` | src/core/main.cpp:2500-2530 | with a native currency the fees of a block are the outputs its transactions spend less those they create |
| `RulesExact.BlockValidIff` | src/core/main.cpp:2365-2544 | a block is accepted if and only if its form is right, BIP 30 holds where enforced, each transaction passes at its turn, and the coinbase pays at most the reward and what the others leave |
| `ChainRuns.ConnectTipKeeps` | src/core/main.cpp:2819-2861 | connecting a block, or failing to, keeps coins, undo files, chain and pool in agreement |
| `ChainRuns.RollBackExact` | src/core/main.cpp:2727-2746 | with the undo file as it reads back, the last block of any chain rolls back cleanly, to the coins of the rest of the chain; those are the replay of that chain but for versions that have been to the disk |
| `ChainRuns.DisconnectTipExact` | src/core/main.cpp:2727-2807 | in every reachable state taking the tip off succeeds and leads to the coins of the parent's chain |
| `ChainRuns.PathIndependence` | src/core/main.cpp:2727-2861 | two runs that end on the same chain end with the coins of the replay of that chain from genesis, whatever branches they visited and whatever was written to disk and read back, up to negative versions, which the disk replaces; where no version is negative the coins are equal |
| `ChainRuns.PoolConsistency` | src/chain/txmempool.cpp:701-772 | after every run each input of the pool is an available coin or an output of a pooled transaction, and no two pooled transactions share an input |
| `ChainRuns.SupplyBound` | src/core/main.cpp:1726-1750 | after every run at height H, with a native currency, unspent outputs total at most the subsidies up to H, which stay below a fixed bound |
| `ChainRuns.ConnectThenTakeOff` | src/core/main.cpp:2727-2861 | connecting a block and taking it off again gives back chain and coins, of which those the block had spent up have a worn version |
| `ChainRuns.SafeRunExample` | src/core/main.cpp:2819-2861 | the assumptions on runs can be met: a run that connects a block with one coinbase |
| `ChainReach.ReachedIff` | src/core/main.cpp:2727-2861 | a chain can be reached by a safe run if and only if it replays from genesis, its heights can be counted, and a txid names one transaction in each block |
| `ChainReach.DirectRun` | src/core/main.cpp:2819-2861 | connecting the blocks of such a chain one after the other is a safe run that ends on it with the coins of its replay |
| `ChainReach.DeterminedIff` | src/core/main.cpp:2727-2861 | all safe runs that end on a chain end with the same coins, versions included, if and only if no version in its replay is negative |
| `ChainReach.ReloadAllIff` | src/storage/txdb.cpp:57-75 | reading all coins back from the database changes none if and only if no version is negative |
| `ChainReach.SwitchBranches` | src/core/main.cpp:2727-2861 | connecting a block, taking it off and connecting another is a safe run and ends with the coins of the other alone |
| `ChainReach.SwitchExample` | src/core/main.cpp:2727-2861 | two safe runs with a native currency end on one chain, one by way of another branch, with equal coins that total exactly the subsidies |
| `Mempool.ReachLeast` | src/chain/txmempool.cpp:580-613 | the descendants are the least set that holds the roots and is closed under spending |
| `Mempool.AcceptKeeps` | src/core/main.cpp:1320-1387 | a transaction that is accepted keeps pool and coins consistent |
| `Mempool.ConnectTxKeeps` | src/chain/txmempool.cpp:678-683 | a transaction that moves from pool to chain, its conflicts removed, keeps pool and coins consistent |
| `Mempool.ConnectBlockKeeps` | src/chain/txmempool.cpp:666-685 | so does a whole block |
| `Mempool.DisconnectBlockKeeps` | src/core/main.cpp:2772-2784 | taking each transaction of a disconnected block back into the pool, in order, or removing it with its descendants, keeps pool and coins consistent |
| `Mempool.RemoveCoinbaseSpendsKeeps` | src/chain/txmempool.cpp:618-644 | removing the spenders of immature coinbases keeps pool and coins consistent |
| `Mempool.NothingImmatureLeft` | src/chain/txmempool.cpp:618-644 | and leaves no pooled transaction that spends an immature coinbase or a missing coin |
| `Mempool.NoConflictLeft` | src/chain/txmempool.cpp:666-685 | after a block the pool holds none of its transactions and nothing that spends one of their inputs |
| `Mempool.UnsharedResurrect` | src/core/main.cpp:2772-2784 | taking transactions back into the pool leaves no two that spend the same output |
| `Mempool.OneSpender` | src/chain/txmempool.cpp:730-735 | under an exact index no two pooled transactions share an input |
| `PoolExact.UnaffectedStay` | src/chain/txmempool.cpp:666-685 | a pooled transaction that is not in the connected block, and that no conflict reaches, stays in the pool, children of the block's transactions included |
| `PoolExact.ConflictsReachLeaves` | src/chain/txmempool.cpp:666-685 | the block's transactions leave, and so does all that a conflict reaches without passing through them |
| `PoolExact.ConnectRemovesExactly` | src/chain/txmempool.cpp:666-685 | connecting a block of new transactions takes out of the pool exactly these, the double-spends of their inputs, and what depends on the double-spends |
| `PoolExact.NoDoubleSpend` | src/core/main.cpp:2450-2530 | no two transactions of a block that applies spend the same output |
| `PoolExact.AcceptableIff` | src/core/main.cpp:1320-1387 | the conditions of AcceptToMemoryPool hold if and only if the transaction is well-formed, no coinbase, new to pool and coins, every input is a spendable output of the pool or a mature coin and spent by nobody in the pool, and the amounts are in order |
| `PoolExact.ReadmittedIff` | src/core/main.cpp:2772-2784 | at its turn a transaction of a disconnected block comes back if and only if the outside allows it and it is acceptable in that sense; otherwise exactly it and what depends on it leave |
| `PoolExact.YoungLeave` | src/chain/txmempool.cpp:618-644 | removeCoinbaseSpends takes out exactly the spenders of coinbases younger than maturity and what depends on them; spends of other coins stay |
| `PoolReturn.SeenFrom` | src/core/main.cpp:1917-1932 | whatever a transaction of a block can spend was written by an earlier one of the block at that height, or is an old coin |
| `PoolReturn.AllComeBack` | src/core/main.cpp:2772-2784 | taking off a block that was just connected, with nobody objecting, gives back all its transactions but the coinbase, and takes out only what depends on that |
| `PoolReturn.NothingLost` | src/core/main.cpp:2727-2861 | after connecting a valid block of new transactions and taking it off again with nobody objecting, every transaction of the block but its coinbase is in the pool |
| `TxMemPools.TxMemPool.AddUnchecked` | src/chain/txmempool.cpp:475-503 | adds the entry, its inputs to mapNextTx and its size to the total, keeping all three exact |
| `TxMemPools.TxMemPool.Spenders` | src/chain/txmempool.cpp:588-593 | the index lookups find exactly the pool children of a transaction |
| `TxMemPools.TxMemPool.RemoveEntry` | src/chain/txmempool.cpp:595-600 | takes out one entry, keeping index and total exact |
| `TxMemPools.TxMemPool.Remove` | src/chain/txmempool.cpp:561-616 | removes exactly the transaction, or exactly it and all its pool descendants, lists what it removed without duplicates, and terminates despite duplicate pushes |
| `TxMemPools.TxMemPool.RemoveConflicting` | src/chain/txmempool.cpp:646-661 | removes exactly the double-spenders and their descendants |
| `TxMemPools.TxMemPool.RemoveBlock` | src/chain/txmempool.cpp:666-685 | computes RemoveForBlock |
| `TxMemPools.TxMemPool.FindImmature` | src/chain/txmempool.cpp:622-640 | lists exactly the transactions that spend an immature coinbase or a missing coin |
| `TxMemPools.TxMemPool.RemoveImmature` | src/chain/txmempool.cpp:618-644 | removes exactly these and their descendants |
| `TxMemPools.TxMemPool.AcceptToMemoryPool` | src/core/main.cpp:1255-1594 | accepts exactly the transactions that are well-formed, new, without conflict in the pool, with all inputs in pool or coins, mature and in range as CheckInputs demands, and that pass whatever else is checked; adds nothing otherwise |
| `TxMemPools.TxMemPool.ResurrectBlock` | src/core/main.cpp:2772-2784 | computes Resurrect |
| `PoolChecks.SomeReady` | src/chain/txmempool.cpp:745-760 | in a consistent pool without circles some waiting transaction always has its inputs, so the loop over the waiting ones makes progress |
| `PoolChecks.CheckEntries` | src/chain/txmempool.cpp:713-744 | the first pass succeeds only when all asserted facts about inputs hold, and sums up all sizes; if it fails, an asserted fact is false or a transaction cannot be paid for |
| `PoolChecks.CheckWaiting` | src/chain/txmempool.cpp:745-760 | the second pass succeeds exactly when the pool is consistent with the coins and every transaction passes CheckInputs |
| `PoolChecks.Check` | src/chain/txmempool.cpp:701-772 | the self-check passes if and only if the pool is consistent, every transaction passes CheckInputs for the next block, mapNextTx is exactly the index of its inputs, and the total size is right; provided a txid that pool and coins share is the same transaction, which `SettledAgrees` derives |
| `TxMemPools.TxMemPool.Check` | src/chain/txmempool.cpp:701-772 | the same, of the pool object |
| `TxNames.NamedApplyAll` | src/core/main.cpp:1917-1932 | when txids name transactions, each coin is the output of the transaction of that name, block after block |
| `PoolFunds.ChecksAre` | src/core/main.cpp:1946-2043 | what CheckInputs asks of amounts does not depend on the state of the chain, only maturity does |
| `PoolFunds.AcceptPayable` | src/core/main.cpp:1495-1525 | accepting a transaction keeps every pooled transaction payable: it passes CheckInputs at the height of the next block |
| `PoolFunds.ConnectPayable` | src/core/main.cpp:2857-2861 | connecting a block leaves only transactions that are payable in the block after it |
| `PoolFunds.TakeOffPayable` | src/core/main.cpp:2771-2784 | so does taking a block off, thanks to the removal of immature spends, whose unsigned age is shown to do no harm |
| `Activation.TakeOffSettled` | src/core/main.cpp:2727-2807 | taking the tip off leads to the coins of the parent's branch, with a pool that is consistent with them and payable |
| `Activation.ConnectSettled` | src/core/main.cpp:2819-2861 | connecting a valid child leads to the coins of its branch, with a consistent and payable pool and undo data for every block |
| `Activation.SettledAgrees` | src/chain/txmempool.cpp:870-880 | in every state reached, a txid that pool and coins share is the same transaction |
| `Activation.ChainState.constructor` | src/core/main.cpp:2282-2345 | once genesis, which adds no coins, is active, everything is in agreement |
| `Activation.ChainState.DisconnectTip` | src/core/main.cpp:2727-2807 | succeeds for every block but genesis that can be read, keeps coins, undo files and pool in agreement with the tip's branch, and changes the pool by resurrection and removal of immature spends, in this order |
| `Activation.ChainState.ConnectBlock` | src/core/main.cpp:2554-2571 | works on a scratch view, and writes undo data only the first time a block is connected |
| `Activation.ChainState.ConnectTip` | src/core/main.cpp:2819-2861 | connects exactly the valid children of the tip, and then removes the block and its conflicts from the pool; whatever goes wrong, coins, pool and tip stay as they were |
| `Activation.ChainState.Reload` | src/storage/txdb.cpp:57-75 | coins read back from the database change nothing but negative versions, and everything stays in agreement |
| `Activation.ChainState.CheckPool` | src/core/main.cpp:2730 | the self-check of the pool, CheckInputs included, passes in every state reached |
| `Activation.ChainState.DisconnectTo` | src/core/main.cpp:3192-3195 | takes off exactly the blocks above the fork |
| `Activation.ChainState.BlocksBetween` | src/core/main.cpp:3207-3211 | the batch is the contiguous stretch of the target's branch, topmost first |
| `Activation.ChainState.ConnectBatch` | src/core/main.cpp:3213-3249 | each connected block is the child of the tip, so the assertion in ConnectTip never fails |
| `Activation.ChainState.ConnectMore` | src/core/main.cpp:3201-3212 | a batch has at most 32 blocks and ends at the target at the latest |
| `Activation.ChainState.ActivateBestChainStep` | src/core/main.cpp:3183-3250 | the blocks up to the fork stay throughout; on success the tip is on the target's branch and is the target, or has more work than the old tip, or the node stops for an upgrade, or the next block is invalid; failure means an unreadable block |
| `MerkleSpec.WidthStep` | src/chain/merkleblock.h:67-69 | each level has half as many nodes as the one below, rounded up |
| `MerkleSpec.WidthIsLeaves` | src/chain/merkleblock.h:67-69 | a node exists exactly when its leftmost leaf does |
| `MerkleSpec.SameHashSameLeaf` | src/chain/merkleblock.cpp:41-56 | two nodes of one level with the same hash have the same leftmost txid |
| `MerkleSpec.Height` | src/chain/merkleblock.cpp:117-120 | the first level with a single node |
| `MerkleSpec.ExtractSound` | src/chain/merkleblock.cpp:76-110 | a traversal of any bits and hashes that ends well on a node's true hash has found leaves under that node, in order |
| `MerkleSpec.Soundness` | src/chain/merkleblock.cpp:128-159 | for any bits and hashes, matches proved against the root of a list of the same length are an in-order subsequence of it, if the pair hash is injective and the root is not 0 |
| `MerkleSpec.Forged` | src/chain/merkleblock.cpp:128-159 | for any number of transactions and any txid there are bits and one hash for which the decoder answers 0 and reports that txid |
| `MerkleSpec.SoundnessIff` | src/chain/merkleblock.cpp:128-159 | soundness for all bits and hashes holds if and only if the root is not 0, the value that stands for failure, or the list is over the limit |
| `MerkleComplete.ReadsBack` | src/chain/merkleblock.cpp:58-110 | the decoder reads back exactly what the encoder wrote for a node, and nothing more |
| `MerkleComplete.Completeness` | src/chain/merkleblock.cpp:112-159 | for distinct txids within the limit, the padded encoding is accepted and yields the true root and exactly the matched txids |
| `MerkleComplete.FirstFlag` | src/chain/merkleblock.cpp:58-67 | the first flag of a node tells whether a leaf under it is matched; when none is, that and the node's hash are all |
| `MerkleComplete.AcceptedUsesAll` | src/chain/merkleblock.cpp:128-159 | an answer other than 0 means that all hashes and all bits but the padding were used, and that there were no more hashes than txids or bits |
| `MerkleComplete.TwinsRefused` | src/chain/merkleblock.cpp:97-103 | a node whose two children come out with the same hash is refused |
| `MerkleComplete.UnpackIs` | src/chain/merkleblock.h:93-105 | flag 8i + k is the k-th lowest bit of byte i |
| `MerkleSize.AllHashes` | src/chain/merkleblock.cpp:58-74 | with all txids matched the stored hashes are the txids, in order |
| `MerkleTree.BuildMerkleTree` | src/primitives/block.cpp:80-103 | the loops compute all levels, the root, and whether a level ends in a pair of identical hashes |
| `MerkleTree.SameRoot` | src/primitives/block.cpp:80-103 | the root of the block's tree is the one that partial trees use |
| `MerkleTree.SameRootSameList` | src/primitives/block.cpp:43-54 | two lists neither of which is found mutated, in trees of the same depth, have the same root if and only if they are the same list |
| `MerkleTree.RepeatedLast` | src/primitives/block.cpp:25-41 | repeating the last of three txids keeps the root, whatever the hash, and is found out |
| `MerkleComplete.EncodedSize` | src/chain/merkleblock.h:38-48 | at most one hash per txid, and at most one plus matches times height; at most 2N-1 flag bits plus one per level of the tree |
| `MerkleComplete.BitCount` | src/chain/merkleblock.h:43-49 | flag bits are two per hash, less one, plus one per descended node with a single child |
| `MerkleComplete.DocumentedBitBoundIff` | src/chain/merkleblock.h:48 | the documented bound of 2N-1 flag bits holds if and only if no match lies below a node that lacks its right child |
| `MerkleComplete.DocumentedBitBoundFails` | src/chain/merkleblock.h:48 | with five txids, the last one matched, there are five bits for two hashes |
| `MerkleSize.GuaranteedSizeIff` | src/chain/merkleblock.h:33-49 | the guaranteed size of 10 + ceil(32.25 N) bytes holds if and only if the two length prefixes and the flag bytes added by nodes with a single child take at most six bytes |
| `MerkleSize.GuaranteedSizeCases` | src/chain/merkleblock.h:33-49 | the guarantee holds for at most 252 hashes and 33 levels, and for at most 65535 hashes without single children; it fails for more; up to there one byte for every eight levels makes up for it |
| `MerkleSize.GuaranteedSizeFails` | src/chain/merkleblock.h:36 | with 1025 txids, all matched, the size is 33068 bytes and the guarantee 33067 |
| `MerkleBlocks.PartialMerkleTree.constructor` | src/chain/merkleblock.cpp:112-124 | building appends exactly the encoding of the tree |
| `MerkleBlocks.PartialMerkleTree.CalcHeight` | src/chain/merkleblock.cpp:143-145 | the loop computes Height |
| `MerkleBlocks.PartialMerkleTree.ParentOfMatch` | src/chain/merkleblock.cpp:59-62 | the loop finds whether a leaf under the node is matched |
| `MerkleBlocks.PartialMerkleTree.TraverseAndBuild` | src/chain/merkleblock.cpp:58-74 | appends the node's encoding to bits and hashes |
| `MerkleBlocks.PartialMerkleTree.TraverseAndExtract` | src/chain/merkleblock.cpp:76-110 | advances the two counters, collects matches and notes failures as Extract does |
| `MerkleBlocks.PartialMerkleTree.Matches` | src/chain/merkleblock.cpp:128-159 | computes ExtractMatches, and answers 0 once the tree is bad |
| `MerkleBlocks.PartialMerkleTree.Serialize` | src/chain/merkleblock.h:100-105 | the bytes unpack to the bits padded with zeros |
| `MerkleBlocks.PartialMerkleTree.Unserialize` | src/chain/merkleblock.h:93-99 | the bits are those of the bytes, least significant first |
| `MerkleBlocks.SendProof` | src/chain/merkleblock.h:88-106 | built, sent and extracted, a proof gives the receiver the true root and exactly the matched txids |
| `CheckQueueProof.NextKeeps` | src/checkqueue.h:70-128 | every critical section, executed check, arrival of work and wake-up, spurious ones included, keeps the accounts: nTodo is queue plus held batches, nTotal less nIdle the threads with a batch |
| `CheckQueueProof.WaitResult` | src/checkqueue.h:141-144 | in every interleaving and every round, Wait returns true exactly when every check added since the previous Wait is true |
| `CheckQueueProof.TakenOnce` | src/checkqueue.h:112-118 | each check added is at every moment in exactly one place: queued, in one batch, or accounted for |
| `CheckQueueProof.SkippedMeansFalse` | src/checkqueue.h:123-125 | if a check is skipped, its round ends with result false |
| `CheckQueueProof.NoLostWakeup` | src/checkqueue.h:84-86 | when the master sleeps without a pending notification, some worker holds a batch |
| `CheckQueueProof.IdleIff` | src/checkqueue.h:166-170 | outside Wait the queue is idle exactly when nothing is outstanding and all checks of the round have passed; after every Wait it is |
| `CheckQueueProof.InternalProgress` | src/checkqueue.h:70-128 | every internal action brings the threads closer to the end |
| `CheckQueueProof.NoDeadlock` | src/checkqueue.h:92-105 | while the master is in Wait some thread can act by itself |
| `CheckQueueProof.WaitReturns` | src/checkqueue.h:141-144 | under every scheduling of the threads Wait returns after finitely many steps |
| `CheckQueueProof.BatchSizeIs` | src/checkqueue.h:106-111 | a thread takes the largest number of checks that all threads and one more could take, but at most nBatchSize and at least one |
| `CheckQueues.CheckQueue.TakeBatch` | src/checkqueue.h:112-118 | moves the last nNow checks, last first |
| `CheckQueues.CheckQueue.ChooseWork` | src/checkqueue.h:92-120 | the section after the clean-up computes Choose |
| `CheckQueues.CheckQueue.Begin` | src/checkqueue.h:87-90 | a thread enters the loop |
| `CheckQueues.CheckQueue.Account` | src/checkqueue.h:79-86 | a finished batch is accounted for, and the master notified of the last one |
| `CheckQueues.CheckQueue.Awake` | src/checkqueue.h:102-104 | a thread returns from waiting |
| `CheckQueues.CheckQueue.ExecuteBatch` | src/checkqueue.h:122-126 | the flag stays up exactly when it was up and all checks of the batch pass |
| `CheckQueues.CheckQueue.Add` | src/checkqueue.h:147-159 | appends the checks and raises nTodo |
| `CheckQueues.CheckQueue.CheckIdle` | src/checkqueue.h:166-170 | from outside the loop, in every state of the system, the test holds exactly when the queue is empty, no thread holds a batch, and every check since the last Wait has passed |
| `CheckQueues.CreatedIdle` | src/checkqueue.h:185-195 | the assertion in the controller's constructor holds in every run of a client that adds no check after its Wait |
| `CheckQueues.NextControlIff` | src/checkqueue.h:185-216 | for any requests of a client in any run, the assertion of the next controller holds under every schedule with the same requests if and only if the client has added no check since its last Wait |
| `CheckQueues.RoundIsPending` | src/checkqueue.h:135-159 | in every run, outside Wait, the checks of the round are those the client itself has added since its last Wait |
| `CheckQueues.SlowWorkers` | src/checkqueue.h:70-128 | while checks are pending there is a schedule with the same requests that leaves one in the queue |
| `CheckQueues.AddAfterWaitIff` | src/checkqueue.h:197-216 | after a Wait, an addition followed by letting go leaves the next controller an idle queue if and only if it was empty |
| `CheckQueues.AddAfterWaitBreaksNext` | src/checkqueue.h:206-216 | an input that fails: a client that adds one check after its Wait, lets go, and creates the next controller |
| `BlockTree.InvertLowestOneLess` | src/core/main.cpp:4592 | clearing the lowest one makes a positive number smaller |
| `BlockTree.InvertLowestOneIs` | src/core/main.cpp:4592 | a number loses exactly its lowest one |
| `BlockTree.GetSkipHeightIs` | src/core/main.cpp:4595-4603 | an even height skips to itself without its lowest one, an odd one to one above the height before without its two lowest ones |
| `BlockTree.GetSkipHeight` | src/core/main.cpp:4595-4603 | a skip leads strictly down, from every height but 0 |
| `BlockTree.BlockIndex.GetAncestor` | src/core/main.cpp:4605-4627 | with skip pointers set, the walk ends on the block that following pprev would reach, and never overshoots |
| `BlockTree.BlockIndex.BuildSkip` | src/core/main.cpp:4634-4638 | sets the pointer so that the whole branch has its skip pointers right |
| `BlockTree.LastCommonAncestor` | src/core/main.cpp:614-629 | the highest block both branches contain |
| `BlockTree.LastCommonUnique` | src/chain/chain.cpp:54-60 | the last common block is unique, so FindFork(b) is LastCommonAncestor(b, Tip) |
| `Chains.Chain.ContainsIff` | src/chain/chain.h:407-409 | a block is in the chain exactly when it lies on the tip's branch |
| `Chains.Chain.NextIsChild` | src/chain/chain.h:412-417 | the successor is the child on the chain; only the tip and blocks off the chain have none |
| `Chains.Chain.SetTip` | src/chain/chain.cpp:14-24 | for any old and new tip, early stop included, entry i is the new tip's ancestor at height i |
| `Chains.Chain.FindFork` | src/chain/chain.cpp:54-60 | the last common block of the given branch and the tip's |
| `Chains.Chain.StepBack` | src/chain/chain.cpp:39-46 | the ancestor at a height, the same through the index and through skip pointers |
| `Chains.Chain.GetLocator` | src/chain/chain.cpp:26-52 | lists the hashes of the block's ancestors at the heights of LocatorHeights |
| `Chains.LocatorShape` | src/chain/chain.cpp:33-49 | a locator starts at its block, descends strictly and ends at genesis |
| `Chains.LocatorHeightsAre` | src/chain/chain.cpp:33-49 | the k-th entry lies k blocks back for the first eleven steps, then 2, 4, 8 and so on further, or is genesis |
| `Chains.LocatorSize` | src/chain/chain.cpp:26-52 | a locator has at most 12 + log2(h) entries |
| `Chains.Chain.FindForkInGlobalIndex` | src/core/main.cpp:773-786 | the first listed block on this chain, or genesis |
| `Chains.Chain.LocatorFindsFork` | src/core/main.cpp:773-786 | the answer to a locator is the highest listed ancestor at or below the fork, and at most twice as far down as the fork |
| `BlockLinks.LinkFirstKeeps` | src/core/main.cpp:3933-3950 | a round of the worklist keeps the rules of linking and leaves fewer blocks with data unlinked, so the worklist terminates |
| `BlockLinks.ArriveUnlinked` | src/core/main.cpp:3951-3955 | a block whose parent is not linked waits in the multimap exactly once |
| `BlockLinks.TotalsExact` | src/core/main.cpp:3927-3950 | whatever the order of arrival, nChainTx is positive exactly when the block and all its ancestors have data, and is then the number of transactions on the branch |
| `BlockLinks.SameTotals` | src/core/main.cpp:4884-4908 | an index rebuilt at start-up has the same totals and the same waiting blocks as the one that was running |
| `BlockLinks.RebuildOneKeeps` | src/core/main.cpp:4888-4899 | the start-up step for one block keeps the rules for all blocks done |
| `BlockStores.BlockStore.AddToBlockIndex` | src/core/main.cpp:3816-3849 | a known header changes nothing; a new one is filed under its hash with parent, skip pointer and work, and the index stays valid |
| `BlockStores.BlockStore.WorkExact` | src/core/main.cpp:3840 | nChainWork is the sum of the proofs along the branch |
| `BlockStores.BlockStore.LinkAll` | src/core/main.cpp:3927-3950 | the propagation ends with all rules of linking in force |
| `BlockStores.BlockStore.ReceivedBlockTransactions` | src/core/main.cpp:3852-3958 | data for any block, in any order, keeps the index valid: totals, waiting blocks, work, skip pointers and best header |
| `BlockStores.BlockStore.LoadBlockIndex` | src/core/main.cpp:4876-4908 | from the blocks sorted by height, recomputes work, totals, waiting blocks, skip pointers and best header to a valid index with the same data |
| `MedianTime.MedianIs` | src/chain/chain.h:256-257 | the median is the one number that at most half of the times are below and more than half do not exceed |
| `MedianTime.LaterMedian` | src/core/main.cpp:4182-4185 | dropping the oldest of a full window and adding a later time than the median does not lower the median |
| `MedianTime.MedianNeverDecreases` | src/core/main.cpp:4182-4185 | along a branch whose headers obey the time rule the median time past never decreases, also in the first blocks; so every block is later than the median of each ancestor |
| `MedianTime.CollectTimes` | src/chain/chain.h:248-254 | the loop fills the array from its end with the times of the last 11 blocks or fewer |
| `MedianTime.GetMedianTimePast` | src/chain/chain.h:246-258 | computes the median of the window |
| `Sorting.SortFrom` | src/chain/chain.h:256 | sorts the filled part of the array in place and leaves the rest alone |
| `Sorting.DescendingRank` | src/chain/txmempool.cpp:322-328 | entry k of the descending list is the one number that at most k samples exceed and more than k reach |
| `FeeEstimator.EstimateNonIncreasing` | src/chain/txmempool.cpp:336-348 | allowing one more block never raises the estimate, and it is never below the answer for no data |
| `FeeEstimator.EstimateIs` | src/chain/txmempool.cpp:315-349 | the estimate is the sample whose rank from the top is the number of faster samples and half of the bucket's own; fewer than eleven samples give no answer |
| `FeeEstimator.ConfirmAllIs` | src/chain/txmempool.cpp:213-241 | entries explained by their fee alone, or by their priority alone, are appended to the one buffer or the other, which keep their last hundred; others leave no sample |
| `FeeEstimator.InBucketIs` | src/chain/txmempool.cpp:264-279 | a bucket holds exactly the entries that took its number of blocks, the last one also those that took longer |
| `FeeEstimator.UpdatedIs` | src/chain/txmempool.cpp:280-296 | each bucket gains the samples of at most ten of the entries that belong to it, and of all when there are no more |
| `FeeEstimator.MinerPolicyEstimator.EstimateFee` | src/chain/txmempool.cpp:315-349 | answers from the cache, which is filled when empty; as long as the caches are right the answer equals an uncached recomputation from all samples |
| `FeeEstimator.MinerPolicyEstimator.EstimatePriority` | src/chain/txmempool.cpp:350-379 | the same for priorities |
| `FeeEstimator.MinerPolicyEstimator.SeenBlock` | src/chain/txmempool.cpp:249-310 | a block that is not the highest changes nothing; another adds at most ten samples to each bucket, and leaves the caches right whatever they held before, although the log messages fill them again |
| `FeeEstimator.MinerPolicyEstimator.RecordBlock` | src/chain/txmempool.cpp:280-296 | each bucket records a sample of the entries that took that many blocks |
| `FeeEstimator.ByConfirmations` | src/chain/txmempool.cpp:264-279 | entries are sorted by how long they took, the last bucket taking all the rest |
| `FeeEstimator.ConfirmAllSane` | src/chain/txmempool.cpp:213-241 | recorded samples are not negative, and a buffer never holds more than 100 |
| `FeeEstimator.MinerPolicyEstimator.Read` | src/chain/txmempool.cpp:391-414 | refuses exactly the corrupt files, changing nothing; otherwise loads the last hundred samples of each buffer and leaves the caches |
| `FeeEstimator.FilledIsCache` | src/chain/txmempool.cpp:322-328 | a cache that estimating fills is a descending list of samples that are not negative, as the next result asks of a cache |
| `FeeEstimator.FeesRightIff` | src/chain/txmempool.cpp:409-413 | fee estimates are right after every sane file if and only if the cache was empty before, or, with no relay fee, answers 0 |
| `FeeEstimator.PrioritiesRightIff` | src/chain/txmempool.cpp:409-413 | priority estimates are right after every sane file if and only if the cache was empty before |
| `Download.WantedOnly` | src/core/main.cpp:713-733 | the list of wanted blocks holds only missing blocks of the branch within the bounds, by increasing height |
| `Download.WantedAll` | src/core/main.cpp:713-733 | and every one of them |
| `Download.Successors` | src/core/main.cpp:689-694 | the batch, filled from its end by parent pointers, is the next stretch of the branch |
| `Download.ScanOne` | src/core/main.cpp:699-734 | one block of the scan |
| `Download.Plan` | src/core/main.cpp:676-736 | requests are the first missing blocks within the window and below the first rejected block, up to the quota; the last common block moves up to the highest one scanned of which everything is here; a staller is named exactly when everything in the window is here or requested and the block above it is missing |
| `Download.UpdateLastCommon` | src/core/main.cpp:664-674 | the last common block is on the target's branch, and it and all its ancestors are here |
| `Download.FindTarget` | src/core/main.cpp:644-657 | a peer off the locked branch is followed only to where the branches part |
| `Download.FindNextBlocksToDownload` | src/core/main.cpp:633-736 | every peer whose target has at least the work of the active chain is served by such a plan above the last common block; for any other nothing happens |
| `Download.StoreIsTruthful` | src/core/main.cpp:713-715 | in a valid block index, nChainTx tells that a block and all its ancestors are here |

## Left out

- SupplyBound: for chains with a native currency only; without one `GetValueIn` and `GetValueOut` are 0 (`src/storage/coins.cpp:226-231`), only the range of the inputs is checked (`src/core/main.cpp:1984-1988`), and no bound is promised.
- Soundness: for roots other than 0, see `SoundnessIff`.
- CreatedIdle: for clients that add no check after their own `Wait`; the exact condition is in `NextControlIff`.
- WaitReturns: wake-ups without a notification are allowed by all safety results, but a scheduler that does nothing else is not counted as running.
- DisconnectRestoresIff: with the undo data as the block made it; `DiskRoundTripIff` is the result for undo data read back from the file.
- CleanDisconnectReconnects: for transactions of non-negative version, as the code does not compare negative ones, and for coins without unspendable outputs, which connecting never stores.
- ConnectRemovesExactly: for pools that hold no txid of the coins; without that, `UnaffectedStay` and `ConflictsReachLeaves` bound what leaves from both sides.
- NothingLost: for such pools, new txids and a maturity of at least one; without these, `ReadmittedIff` says what comes back.
- SameRootSameList: for lists in trees of the same depth; a txid that is also an inner hash of another tree is not ruled out.
- BuildMerkleTree: takes the hashes of the transactions; the tree type that hashes a coinbase without its unspendable outputs is left out.
- UndoSurvivesIff: a compressed output is one item of the stream; the compression of amounts and scripts is not modelled.
- UndoReadBack: the records of a file are kept apart; the counts that frame them and the checksum are not modelled.
- CoinReadBack: for records of fewer than 2^31 outputs.
- Check: equivalence where pool and coins hold different transactions under one txid, which the naming assumption rules out.
- ConnectTip: a failed write after the flush of the scratch view stops the node and is not modelled; nor are the marks on invalid blocks and the candidate set.
- ConnectBlock: sigop limits, scripts, permissions, assets, streams and filters are one outcome given from outside.
- AcceptToMemoryPool: minimum fees, priority, rate limits, finality, standardness and script checks are one outcome given from outside.
- Remove: orphan bookkeeping, wallet notifications and change counters.
- ActivateBestChainStep: starts from an active genesis block; replaying the pool and the wallet after the step is left out.
- FindNextBlocksToDownload: starts from an empty list, as its caller does; the best block a peer is known to have is given.
- LoadBlockIndex: ties between best headers of equal work, and validity levels of entries.
- TxMemPool entries are reduced to their transactions; hashList, priorities and deltas are left out.
- Block index entries have fixed parent and height: the order of assignments while an entry is made is not captured.
- The cache layers and the block-linking rules are stated on values; the mutable maps and iterators of `coins.cpp` are not captured, and the rest of the model works on the flat view.
- FindMostWorkChain and the order of setBlockIndexCandidates: its keys change while elements are in the ordered set.
- In-flight counters and hashList: the counting invariants one would expect do not hold in the code.
- Machine overflow of heights, nChainTx, nChainWork and locator steps; these are mathematical integers.
- Floating point: priorities are ordered numbers, the admin fee ratio and the rate limiter are left out.
- Shutting down the verification queue (fQuit is never set) and the controller without a queue.
- Wallet, peer messages, RPC, logging, signals, disk formats other than undo and coin records, and start-up plumbing.

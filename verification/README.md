# Subcoin, verified

A Dafny model of the parts of Subcoin (a Bitcoin full node on Substrate) whose correctness is hardest to see from the
code, with proofs of what those parts are for. `dafny verify dfyconfig.toml` checks the whole project.

The model follows the node's own components:

- **The UTXO set and its verifier** (`Subsidy`, `Sanity`, `Verification`, `Pallet`, `Application`, `Conservation`,
  `Consensus`, `Instances`). The runtime's `Coins` and `CoinsCount`, the block verifier, and how they fit: an accepted block is
  applied without a missing coin, acceptance is spelled out rule by rule, every coin is traced to the output it came from,
  and value is conserved along every chain, below 21 million coins.
- **Parallel execution levels** (`ExecutionLevels`, `Reordering`, `PreparedBlock`). The level-by-level sort, the proof
  that running levels in any inner order gives block order's UTXO set, and the prefetched view of a block's inputs.
- **The indexer** (`IndexerTables`, `IndexerBatch`, `IndexerDatabase`, `IndexerRevert`, `IndexerChain`,
  `IndexerCursor`, `IndexerResume`, `IndexerRun`, `IndexerLive`, `IndexerNotify`, `IndexerRepeat`,
  `IndexerBalance`, `IndexerReceipts`, `IndexerMeaning`, `IndexerVerified`). Tables as maps with primary keys, `INSERT OR REPLACE` as map update, a committed
  batch as one durable step. Batching, revert, crash and resume, notifications, balances, and what every
  row of every table says about the chain.
- **The mempool** (`MempoolArena`, `MempoolGraph`, `MempoolSums`, `MempoolLinks`, `MempoolLimits`, `MempoolSpends`,
  `MempoolAccept`, `MempoolTotals`, `Mempool`, `MempoolFees`, `MempoolBacked`, `MempoolInstances`,
  `PackageSort`). The arena with its five indices, walks over links, acceptance, every removal, the limits and cached
  totals over all runs, and the package sort.
- **Fork choice and MuHash** (`ForkChoice`, `Residues`, `MuHash`).

`Bitcoin`, `Graphs` and `Sums` hold the shared vocabulary. A transaction carries its txid and witness txid as fields;
a theorem that needs txids to be distinct, fresh or collision-free says so. Scripts, signatures, merkle roots, finality
and signature-operation counts are functions passed in. Clocks, the network, the coins cache and the chain client are
parameters. Slot keys are never reused. Heights, works and totals are unbounded integers except where a row says
otherwise.

Code that works by changing things step by step is modelled by classes and methods with loops, each proved against
functions of the old state; the theorems are about those functions. Code that only computes is modelled by functions.

## What the proofs found

Where code and intention part, the model follows the code and the exact condition is proved. A member in brackets is
a concrete input where it shows.

- `Application.AcceptanceMakesApplicationSafe`: the verifier looks up OP_RETURN outputs of the same block, the runtime
  never stores them. Only the script check keeps the two apart. With script verification switched off there is an
  accepted block that makes the runtime panic (`Instances.AcceptedBlockPanics`).
- The verifier does not enforce BIP 30 (`Instances.AcceptedBlockOverwrites`). `Pallet.CountTracksRun` shows that
  `CoinsCount` is exact if and only if nothing is overwritten (`Pallet.RepeatedCoinbaseMiscounts`).
- The signature-operation limit of `verify_transactions` is applied to each transaction, not to their sum
  (`Instances.AcceptedBlockExceedsSigOps`). `Verification.SigOpsAreBoundedEach` is the bound that does hold.
- `IndexerVerified.VerifiedBalances`: a repeated coinbase txid replaces its output row and keeps both history rows. An
  address balances if and only if no replaced row was worth anything to it
  (`IndexerVerified.RepeatedRewardUnbalances`).
- `IndexerResume.Indexer.Restarts`: a first start when the chain has only its genesis block goes active without
  indexing block 0, and no later start makes up for it (`IndexerRun.GenesisStaysOut`).
- `IndexerRun.CatchUpLoop`: a resumed pass stops at the target it was started with, and the loop around it stops when
  the best block did not move meanwhile. So the indexer can go live behind the best block
  (`IndexerRun.GoesLiveBehind`). By `IndexerNotify.GappedImport` the next import leaves the gap.
- `IndexerNotify.Follow`: a reorganisation is reverted to just below the first retracted block of the route. By
  `IndexerNotify.DescendingIff` a route that lists its blocks from the old tip down is followed only when it gives up at
  most one block (`IndexerNotify.DeepReorgFails`).
- `IndexerLive.RepeatedBlock`: a notification without a route for a height below the tip indexes the canonical block
  of that height again, and `INSERT OR REPLACE` drops the spend marks that later blocks had set
  (`IndexerLive.RepeatLosesMark`). A restart would restore them; by `IndexerRepeat.RepeatThenImport` one further import
  makes the loss permanent.
- `Mempool.MemPool.PreChecks`: replacement is judged while the fee of the new transaction is still zero, so every
  transaction in conflict with the pool is refused although replacement is enabled by default.
- `Mempool.MemPool.Expire`: expiry does not take descendants along, so a younger child can be left with a dead parent
  (`MempoolInstances.ExpiryOrphansChild`). By `Mempool.MemPool.AcceptSingle` the next descendant then panics
  (`MempoolInstances.OrphanPanics`).
- `MempoolTotals.TotalsAreExactIff`: a new transaction is added to its ancestors' ancestor totals as well as to their
  descendant totals. The ancestor totals of an entry are exact if and only if nothing was ever accepted below it
  (`MempoolInstances.ParentCountsItsChild`).
- `MempoolTotals.ScoreIsTrueIff`: mining order therefore goes by a score that blends ancestors and descendants, and the
  exact condition for it to be the true ancestor score is proved (`MempoolInstances.StrangerOvertakes`).
- `Mempool.MemPool.ListIsCurrentIff`: the relay list is rebuilt on removal only, so that it lacks whatever was accepted
  since.
- `MempoolBacked.HonestRun`: `finalize_tx` reports an overflow of the pool's fee total after the entry has been
  added; fees that come out of coins of a verified chain never reach it.
- `Mempool.MemPool.TrimToSize`: the negated key makes eviction start from the highest score, contrary to the comments. It
  goes by lowest score if and only if nothing is evicted or all scores are equal (`MempoolInstances.DearGoesFirst`).
- `MuHash.CancelsIfInvertible`: an element that is zero modulo the prime does not cancel; it fixes the value at zero.

## Model

| member | source | states |
|---|---|---|
| `Subsidy.ReserveCovers` | crates/subcoin-runtime-primitives/src/lib.rs:125-139 | each block's subsidy comes out of a reserve that never goes negative: the rest of the current halving period plus one whole period at its rate |
| `Subsidy.SupplyCap` | crates/subcoin-runtime-primitives/src/lib.rs:120-139 | at every height the subsidies issued so far sum to less than 21,000,000 coins |
| `Subsidy.Halves` | crates/subcoin-runtime-primitives/src/lib.rs:125-139 | heights below 210,000 pay exactly 50 coins, and 210,000 blocks later a block pays exactly half, rounded down, for ever |
| `Sanity.CheckOutputValues` | crates/subcoin-primitives/src/consensus.rs:51-64 | accepts exactly when no output and not the total exceeds the money limit, returns the exact total, and reports the first failure in loop order |
| `Sanity.FindDuplicateInput` | crates/subcoin-primitives/src/consensus.rs:67-72 | nothing exactly when the inputs are distinct; otherwise the first index that repeats an earlier input |
| `Sanity.CheckTransactionSanity` | crates/subcoin-primitives/src/consensus.rs:38-90 | accepts exactly the sane transactions: non-empty, in size, in value, distinct inputs, coinbase script length or no null input; an error names the first rule in order that is broken |
| `Sanity.CheckTransactions` | crates/sc-consensus-nakamoto/src/verification.rs:331-347 | the loop accepts exactly when no later coinbase, no repeated txid and no insane transaction occurs, and sums the legacy signature operations; an error is that of the first transaction that fails |
| `Sanity.CheckBlockSanity` | crates/sc-consensus-nakamoto/src/verification.rs:300-372 | accepts exactly the blocks that are non-empty, in size, coinbase first and only, with distinct txids, sane transactions, legacy signature operations in bound and a matching merkle root; an error names the first of these in order that fails |
| `Consensus.TxSaneMeans` | crates/subcoin-primitives/src/consensus.rs:38-90 | the definition of a sane transaction, rule by rule and number by number: a million bytes without witnesses, 21 million coins, 2 to 100 bytes of coinbase script |
| `Consensus.BlockSaneMeans` | crates/sc-consensus-nakamoto/src/verification.rs:300-372 | the definition of a sane block likewise: a million bytes of header, count and transactions, 20,000 legacy signature operations, counted from the other end |
| `Pallet.Storage.CollectNewCoins` | crates/pallet-bitcoin/src/lib.rs:146-171 | the collected pairs are exactly the outputs that are not OP_RETURN, each once, with value, script, height and whether the one input is null |
| `Pallet.Storage.TakeAll` | crates/pallet-bitcoin/src/lib.rs:190-197 | reports a missing coin exactly when some input is absent or repeated; otherwise removes exactly the inputs |
| `Pallet.Storage.ProcessTransaction` | crates/pallet-bitcoin/src/lib.rs:133-208 | panics exactly when a transaction with a real input has one that is absent or repeated; otherwise `Coins` holds what was there and is not spent plus the outputs that are not OP_RETURN, field by field, none for a coinbase at the two BIP 30 heights, and `CoinsCount` moves as specified |
| `Pallet.Storage.ProcessBlock` | crates/pallet-bitcoin/src/lib.rs:133-208 | the same for all transactions of a block in order, with the fold over the transactions as its specification |
| `Pallet.ApplyTxMeans` | crates/pallet-bitcoin/src/lib.rs:133-208 | the specification of one transaction, written out without its functions: when there is no next state, and otherwise every coin of the next state |
| `Consensus.CoinsHaveOrigin` | crates/pallet-bitcoin/src/lib.rs:133-208 | every coin stored after any chain of verified blocks is output `vout` of some transaction of the block at its height with its txid; it is flagged as coinbase exactly if that is the first transaction, and carries the value and script of the output |
| `Consensus.LookupsAgree` | crates/sc-consensus-nakamoto/src/verification.rs:611-653 | an output still there after its block is found with the same value, script, flag and height from inside its own block and from the state after it |
| `Consensus.InputsTraceBack` | crates/sc-consensus-nakamoto/src/verification.rs:482-512 | every input of an accepted block on a verified chain names an output of an earlier block, at least 100 blocks back if of its coinbase, or of an earlier transaction of the block that is not its coinbase |
| `Pallet.SizeAfter` | crates/pallet-bitcoin/src/lib.rs:173-207 | exact size of the set after a transaction: created minus consumed minus overwritten; what is consumed was there |
| `Pallet.CountTracksSize` | crates/pallet-bitcoin/src/lib.rs:181-207 | the counter never underflows, and goes on being the size of the set exactly when no coin was overwritten |
| `Pallet.CountTracksRun` | crates/pallet-bitcoin/src/lib.rs:181-207 | along any run the counter ends as the size of the set if and only if no transaction overwrote a coin |
| `Pallet.CountDrifts` | crates/pallet-bitcoin/src/lib.rs:181-207 | over any run the counter drifts from the size of the set by exactly the number of coins overwritten |
| `Pallet.RepeatedCoinbaseMiscounts` | crates/pallet-bitcoin/src/lib.rs:181-207 | an instance: a coinbase with a txid still in the set leaves one coin and a counter of two |
| `Verification.FirstWithTxid` | crates/sc-consensus-nakamoto/src/verification.rs:634-653 | the lookup inside the block finds the first earlier transaction with the txid, and only such |
| `Verification.CheckInputs` | crates/sc-consensus-nakamoto/src/verification.rs:482-559 | no fault exactly when the inputs are distinct, unspent in the block, found, mature and script-valid; then the spent set and the input value are exact; a fault is that of the first input that fails |
| `Verification.FaultIff` | crates/sc-consensus-nakamoto/src/verification.rs:482-555 | what each error about an input says: named before, not found, a coinbase less than 100 blocks old, or a bad script, with its place |
| `Verification.CheckTransaction` | crates/sc-consensus-nakamoto/src/verification.rs:444-592 | accepts exactly when the transaction is final, its inputs pass, its signature operations are in bound and outputs do not exceed inputs; returns the exact fee; an error names the first of these that fails, with the input or the amounts |
| `Verification.VerifyTransactions` | crates/sc-consensus-nakamoto/src/verification.rs:376-609 | accepts exactly the blocks that are acceptable by an order-free definition, the coinbase reward bound included, which `Consensus.AcceptedMeans` writes out; an error is that of the first rule and the first transaction in order that fails |
| `Consensus.TransactionsPassIff` | crates/sc-consensus-nakamoto/src/verification.rs:444-592 | the transactions of a block pass exactly if each is final, each input names a coin of the state or an earlier output of the block, 100 blocks old if from a coinbase, with a valid script, no outpoint is named twice, signature operations cost at most 80,000 and outputs do not exceed inputs |
| `Consensus.AcceptedMeans` | crates/sc-consensus-nakamoto/src/verification.rs:376-609 | a sane block is accepted exactly if that holds, the coinbase height is right where required, and all outputs of the block together are at most the subsidy plus the worth of what its inputs name |
| `Verification.SigOpsAreBoundedEach` | crates/sc-consensus-nakamoto/src/verification.rs:562-575 | the summed signature-operation cost of an accepted block is at most the limit times the number of its transactions after the coinbase, so within the limit where there is at most one |
| `Instances.AcceptedBlockExceedsSigOps` | crates/sc-consensus-nakamoto/src/verification.rs:562-575 | a sane, accepted block with two such transactions whose summed cost is twice the limit: the bound is attained |
| `Instances.AcceptedBlockOverwrites` | crates/sc-consensus-nakamoto/src/verification.rs:376-609 | a sane, accepted block that overwrites an unspent coin of the same txid |
| `Application.AcceptedInput` | crates/sc-consensus-nakamoto/src/verification.rs:454-500 | an accepted input names a coin of the state or of an earlier transaction exactly when it is not an OP_RETURN output of the block |
| `Application.AcceptanceMakesApplicationSafe` | crates/pallet-bitcoin/src/lib.rs:187-203 | a block accepted against the parent state is applied without the missing-coin panic if and only if no input resolves to an OP_RETURN output of the block itself |
| `Application.ScriptCheckPreventsPanic` | crates/sc-consensus-nakamoto/src/verification.rs:515-555 | a script check that refuses OP_RETURN outputs rules the panic out for every accepted block |
| `Instances.AcceptedBlockPanics` | crates/sc-consensus-nakamoto/src/verification.rs:523-527 | with script verification switched off, a sane, accepted block on which the runtime panics |
| `Conservation.FeesAreExact` | crates/sc-consensus-nakamoto/src/verification.rs:483-592 | the worth still available, the fees so far and the worth that was overwritten sum to exactly the parent's total plus the coinbase outputs, after any number of transactions that pass |
| `Conservation.FeesAreInputsLessOutputs` | crates/sc-consensus-nakamoto/src/verification.rs:483-592 | the fees of a block are the worth of everything its inputs name less all outputs after the coinbase |
| `Conservation.RewardIff` | crates/sc-consensus-nakamoto/src/verification.rs:595-606 | a block whose transactions pass is accepted exactly if all its outputs are at most the subsidy plus the worth of what its inputs name |
| `Conservation.FeesAreBacked` | crates/sc-consensus-nakamoto/src/verification.rs:483-592 | fees plus what is still available never exceed the parent's total plus the coinbase outputs, after any number of accepted transactions |
| `Conservation.BlockAddsAtMostSubsidy` | crates/sc-consensus-nakamoto/src/verification.rs:595-606 | one verified and applied block raises the total of the UTXO set by at most its subsidy |
| `Conservation.SupplyIsBounded` | crates/sc-consensus-nakamoto/src/verification.rs:376-609 | along every chain of verified and applied blocks the total is at most the subsidies so far, which stay below 21 million coins |
| `Conservation.SumsNeverOverflow` | crates/sc-consensus-nakamoto/src/verification.rs:558-604 | at any point of checking a sane block the running sums of input value, fees, and fees plus subsidy fit 64 bits |
| `Conservation.NextBlockNeverOverflows` | crates/sc-consensus-nakamoto/src/verification.rs:558-604 | on top of any such chain that holds for any further sane block, accepted or not |
| `ExecutionLevels.CollectDependencies` | crates/sc-consensus-nakamoto/src/block_preparation.rs:84-118 | a transaction after the first depends on exactly those that last made, up to itself, an output that one of its inputs names |
| `ExecutionLevels.ReleaseDependents` | crates/sc-consensus-nakamoto/src/block_preparation.rs:161-166 | in-degrees stay equal to the number of unplaced dependencies, and no decrement meets a zero, so the saturating subtraction never saturates |
| `ExecutionLevels.PlaceNext` | crates/sc-consensus-nakamoto/src/block_preparation.rs:146-168 | one round either places exactly the ready transactions or finds none, and then the dependencies have a cycle |
| `ExecutionLevels.TopologicalLevels` | crates/sc-consensus-nakamoto/src/block_preparation.rs:125-172 | panics exactly on cyclic dependencies; otherwise a levelling of all transactions |
| `ExecutionLevels.BlockIsAcyclic` | crates/sc-consensus-nakamoto/src/block_preparation.rs:84-122 | the dependencies of a block are acyclic exactly when no transaction after the first spends its own output |
| `ExecutionLevels.Build` | crates/sc-consensus-nakamoto/src/block_preparation.rs:84-122 | panics exactly when some transaction after the first spends one of its own outputs; otherwise a levelling that covers the block |
| `ExecutionLevels.DependencyIsEarlier` | crates/sc-consensus-nakamoto/src/block_preparation.rs:125-172 | every dependency sits in a strictly earlier level |
| `ExecutionLevels.LevelsAreDisjoint` | crates/sc-consensus-nakamoto/src/block_preparation.rs:125-172 | no transaction is in two levels |
| `ExecutionLevels.LevelIsDepth` | crates/sc-consensus-nakamoto/src/block_preparation.rs:125-172 | a transaction's level is exactly the length of its longest dependency chain |
| `Reordering.BlockOrderState` | crates/pallet-bitcoin/src/lib.rs:187-203 | where block order succeeds, the state after n transactions is the order-free state of those n |
| `Reordering.AnyScheduleAgrees` | crates/sc-consensus-nakamoto/src/block_preparation.rs:66-172 | any order that respects dependencies applies without a missing coin and ends in the UTXO set of block order |
| `Reordering.LevelOrderAgrees` | crates/sc-consensus-nakamoto/src/block_preparation.rs:66-172 | levels run one after the other, each in any order, miss no coin and end in exactly the UTXO set of block order |
| `Reordering.FreshBlockCounts` | crates/pallet-bitcoin/src/lib.rs:181-207 | with fresh, distinct txids nothing is overwritten, so the counter equals the size of the set after the block |
| `PreparedBlock.Prepare` | crates/sc-consensus-nakamoto/src/block_preparation.rs:244-296 | holds exactly the in-block outputs, and exactly those other inputs that the provider knows, with their coins; panics exactly where the level sort does |
| `PreparedBlock.MissingUtxos` | crates/sc-consensus-nakamoto/src/block_preparation.rs:320-335 | lists exactly the inputs that the prefetched view does not resolve |
| `PreparedBlock.ViewAgrees` | crates/sc-consensus-nakamoto/src/block_preparation.rs:299-317 | the prefetched view gives the verifier's output, flag and height for an input if and only if the outpoint is not made in the block, or made earlier and new to the state, or stored identically |
| `PreparedBlock.NothingMissing` | crates/sc-consensus-nakamoto/src/block_preparation.rs:320-335 | with fresh txids and backward inputs nothing is missing exactly when every lookup of the verifier succeeds |
| `IndexerDatabase.OutpointsToFetch` | crates/subcoin-indexer/src/db.rs:449-458 | exactly the non-null outpoints the batch spends |
| `IndexerDatabase.FetchOutputs` | crates/subcoin-indexer/src/db.rs:461-498 | exactly the addressed rows among them, with their address and value |
| `IndexerDatabase.ProcessInputs` | crates/subcoin-indexer/src/db.rs:538-566 | spends and debits are those of the outputs known to the database or made earlier in the batch |
| `IndexerDatabase.ProcessOutputs` | crates/subcoin-indexer/src/db.rs:569-596 | rows, the in-memory outputs and the credits of a transaction |
| `IndexerDatabase.CollectBatch` | crates/subcoin-indexer/src/db.rs:500-598 | one pass in chain order fills the buffers that the specification collects |
| `IndexerDatabase.Database.IndexBlocksBatch` | crates/subcoin-indexer/src/db.rs:439-693 | the tables of blocks, transactions, outputs and address history become those of the specified batch, all inserts before all spend marks; the cursor stays |
| `IndexerDatabase.Database.RevertToHeight` | crates/subcoin-indexer/src/db.rs:368-405 | those four tables become the specified reverted tables |
| `IndexerTables.OutputAfter` | crates/subcoin-indexer/src/db.rs:634-669 | what indexing one transaction does to a single output row: replaced and unmarked if made, marked if spent, else kept |
| `IndexerTables.IndexBlocksAppend` | crates/subcoin-indexer/src/db.rs:439-693 | indexing block lists one after the other is indexing their concatenation |
| `IndexerTables.InsertsKeepUnique` | crates/subcoin-indexer/src/db.rs:107-111 | over any inserts no two block rows share a hash, and a row stays unless its height or its hash is inserted again |
| `IndexerBatch.BatchIsDirect` | crates/subcoin-indexer/src/db.rs:500-693 | a batch that resolves spends in memory gives the tables of indexing one transaction at a time, also over rows that are already there and with txids repeated at another height, as long as nothing is spent in the batch before it is made again |
| `IndexerBatch.BatchingIsInvisible` | crates/subcoin-indexer/src/db.rs:421-693 | one batch of two block lists gives the same tables as two batches |
| `IndexerBatch.StoredRowWins` | crates/subcoin-indexer/src/db.rs:543-552 | an input of a batch is taken to spend the stored row if that pays an address, even where the batch has replaced it, and otherwise the row that the batch made |
| `IndexerRevert.RevertCancelsTx` | crates/subcoin-indexer/src/db.rs:368-405 | reverting cancels the indexing of a transaction above the height if and only if it overwrote no row or mark that belongs at or below it |
| `IndexerRevert.RevertUndoesIndexing` | crates/subcoin-indexer/src/db.rs:368-405 | from tables that stop at a height, indexing any valid blocks above it and reverting restores them exactly |
| `IndexerRevert.ReorgForgetsBranch` | crates/subcoin-indexer/src/db.rs:368-405 | index a branch, revert, index another: the same as indexing the other alone |
| `IndexerCursor.CursorRoundTrip` | crates/subcoin-indexer/src/db.rs:174-223 | a saved cursor is read back unchanged from its text form |
| `IndexerCursor.StoredText` | crates/subcoin-indexer/src/db.rs:208-216 | the text of a cursor of either kind, letter by letter |
| `IndexerCursor.ForeignNumbers` | crates/subcoin-indexer/src/db.rs:191-201 | which numbers parse: every decimal below 2^32, also with a plus sign or a leading zero; nothing else |
| `IndexerCursor.ReadsActive` | crates/subcoin-indexer/src/db.rs:200-203 | what any text after `active:` is read as; a number that does not parse counts as zero |
| `IndexerCursor.ReadsHistorical` | crates/subcoin-indexer/src/db.rs:185-199 | the same for `historical:`, which takes exactly two numbers, the target first |
| `IndexerChain.CanonSettled` | crates/subcoin-indexer/src/db.rs:500-693 | along a valid chain every indexed transaction keeps its rows, marks and history, and every mark is explained by an input |
| `IndexerChain.ReindexStep` | crates/subcoin-indexer/src/db.rs:634-669 | indexing a transaction a second time keeps the invariant of half re-indexed tables: only marks of spends still to come may be missing |
| `IndexerChain.CaughtUp` | crates/subcoin-indexer/src/db.rs:500-693 | when the second pass has caught up nothing is missing |
| `IndexerChain.RangeIsCompatible` | crates/subcoin-indexer/src/db.rs:538-566 | a stretch indexed for the second time may still be done as one batch |
| `IndexerResume.BatchKeepsState` | crates/subcoin-indexer/src/indexer.rs:201-224 | a committed batch moves half re-indexed tables on by exactly its blocks |
| `IndexerResume.CrashIsSound` | crates/subcoin-indexer/src/indexer.rs:64-198 | tables at some block with a cursor at or before it are a sound starting point |
| `IndexerResume.Indexer.SaveState` | crates/subcoin-indexer/src/db.rs:208-223 | the stored text parses back to the state saved |
| `IndexerResume.Indexer.IndexBlockBatch` | crates/subcoin-indexer/src/indexer.rs:201-224 | one durable step forward, sound for the next start |
| `IndexerResume.Indexer.IndexBlockRange` | crates/subcoin-indexer/src/indexer.rs:124-198 | wherever it crashes between durable steps the database stays sound; if it finishes, the tables are those of one uninterrupted pass and the cursor is active at the last block; it takes one durable step for each hundred blocks begun and at most one save for each thousand, and never leaves the cursor more than a thousand blocks behind |
| `IndexerResume.Indexer.FreshStart` | crates/subcoin-indexer/src/indexer.rs:93-117 | a first start saves its cursor before indexing, so any durable step leaves a cursor that aims at the best block; with only the genesis block it goes active without indexing it |
| `IndexerResume.Indexer.Resume` | crates/subcoin-indexer/src/indexer.rs:68-80 | an interrupted pass is finished up to the target it was started with |
| `IndexerResume.Indexer.CatchUp` | crates/subcoin-indexer/src/indexer.rs:81-92 | an active indexer catches up with the best block |
| `IndexerResume.Indexer.HandleIndexGap` | crates/subcoin-indexer/src/indexer.rs:64-121 | a start that completes leaves the tables of one uninterrupted pass and a cursor at the best block, or at the old target where it resumed one; there is no cursor exactly when there was none and no durable step was taken |
| `IndexerResume.Indexer.Restarts` | crates/subcoin-indexer/src/indexer.rs:64-198 | however many starts crash wherever they like while the chain grows, once one completes the tables are those of one uninterrupted pass up to a best block that one of the starts saw; the genesis block is in them if and only if the first start with a durable step saw a second block; a last start left undisturbed completes; the cursor is never more than a thousand blocks behind |
| `IndexerResume.GenesisMatters` | crates/subcoin-indexer/src/indexer.rs:93-117 | a pass from block 0 and one from block 1 never agree: the second lacks the genesis row |
| `IndexerRun.CatchUpLoop` | crates/subcoin-indexer/src/indexer.rs:281-310 | the loop goes live only on the tables of one uninterrupted pass; it goes live behind the best block if and only if it leaves after its first pass and that pass resumed another target |
| `IndexerRun.GoesLiveBehind` | crates/subcoin-indexer/src/indexer.rs:281-310 | an instance: a crash at best block 1, a new block, a restart; the indexer goes live at block 1 of 2 |
| `IndexerRun.GenesisStaysOut` | crates/subcoin-indexer/src/indexer.rs:93-117 | an instance: a first start at the genesis block alone, a second at block 2; both complete, and block 0 is missing |
| `IndexerLive.RevertToFork` | crates/subcoin-indexer/src/indexer.rs:324-347 | reverting the tables of a chain to a fork leaves the tables of its part up to the fork |
| `IndexerNotify.Enact` | crates/subcoin-indexer/src/indexer.rs:349-364 | every enacted height that the chain has is indexed in turn, and the last such height is remembered |
| `IndexerNotify.Notify` | crates/subcoin-indexer/src/indexer.rs:320-390 | one turn of the live loop for any notification: the exact tables, the exact height remembered, and whether the cursor moves; an import that the chain does not have changes nothing, another moves height and cursor to it, a route to its last enacted block or just below the first retracted one |
| `IndexerNotify.Follow` | crates/subcoin-indexer/src/indexer.rs:320-390 | from the tables of one chain, the handler reaches the tables and cursor of the next one if and only if the route lists the lowest retracted block first and enacts up to the tip, or, without a route, the import is the one missing block or the tip once more |
| `IndexerNotify.FollowAll` | crates/subcoin-indexer/src/indexer.rs:320-390 | after any number of such notifications the tables are those of the last chain indexed from scratch |
| `IndexerNotify.DescendingIff` | crates/subcoin-indexer/src/indexer.rs:325-347 | a route that lists the retracted blocks from the old tip down is followed if and only if it gives up at most one block |
| `IndexerNotify.DeepReorgFails` | crates/subcoin-indexer/src/indexer.rs:325-347 | an instance: two blocks given up for three others, listed from the tip down |
| `IndexerNotify.GappedImport` | crates/subcoin-indexer/src/indexer.rs:365-379 | an import without a route above the next height leaves a block out |
| `IndexerLive.RepeatedBlock` | crates/subcoin-indexer/src/indexer.rs:365-379 | committing an already indexed height again changes nothing if and only if no output of that block is marked as spent by a later one |
| `IndexerLive.RepeatLosesMark` | crates/subcoin-indexer/src/db.rs:634-653 | a concrete coin that loses its spend mark when its block is indexed again |
| `IndexerRepeat.RepeatIsDurable` | crates/subcoin-indexer/src/indexer.rs:365-390 | such an import moves the cursor back to the old height, from where the next start restores every mark |
| `IndexerRepeat.RepeatThenImport` | crates/subcoin-indexer/src/indexer.rs:365-390 | after one or more further imports the tables are those of the chain if and only if the repeat dropped no mark; otherwise the loss is permanent |
| `IndexerBalance.ReceivedIsSentPlusConfirmed` | crates/subcoin-indexer/src/queries.rs:107-152 | received equals sent plus confirmed, whatever the tables hold; what received and sent are is said by `IndexerReceipts` |
| `IndexerBalance.TxMovesBalance` | crates/subcoin-indexer/src/db.rs:537-596 | one transaction that spends unspent rows moves the history total and the confirmed balance of an address by the same amount, except for what the rows it replaces were worth |
| `IndexerBalance.RunMovesBalance` | crates/subcoin-indexer/src/db.rs:537-596 | over any such run the history total drifts from the confirmed balance by exactly what was lost to replaced rows |
| `IndexerBalance.BalancedIff` | crates/subcoin-indexer/src/queries.rs:107-152 | from balanced tables a run leaves an address balanced if and only if no row it replaced was unspent and worth anything to the address |
| `IndexerBalance.BatchedBalances` | crates/subcoin-indexer/src/db.rs:421-693 | both statements for committed batches, however the blocks are divided among them |
| `IndexerBalance.BalancesAgree` | crates/subcoin-indexer/src/queries.rs:107-152 | where no txid occurs twice, history deltas sum to the unspent outputs, which are received minus sent, for every address |
| `IndexerReceipts.MarkKeepsReceived` | crates/subcoin-indexer/src/db.rs:655-669 | marking rows as spent leaves what an address received unchanged |
| `IndexerReceipts.TxReceives` | crates/subcoin-indexer/src/db.rs:569-596 | one transaction raises what an address received by exactly what its outputs pay the address, less what the rows it replaces had paid |
| `IndexerReceipts.TxSends` | crates/subcoin-indexer/src/db.rs:538-566 | it raises what the address sent by exactly the value of the unspent rows of the address that its inputs name, less what the rows it replaces had sent |
| `IndexerReceipts.RunReceives` | crates/subcoin-indexer/src/db.rs:500-598 | the first over any run of transactions from any tables |
| `IndexerReceipts.RunSends` | crates/subcoin-indexer/src/db.rs:500-598 | the second over any run |
| `IndexerReceipts.BatchedTotals` | crates/subcoin-indexer/src/db.rs:421-693 | both for committed batches, however the blocks are divided among them |
| `IndexerReceipts.ReceivedIsPaid` | crates/subcoin-indexer/src/queries.rs:107-152 | where no txid occurs twice, an address has received the sum of all outputs of the chain that ever paid it |
| `IndexerReceipts.SentIsSpent` | crates/subcoin-indexer/src/queries.rs:107-152 | and has sent the sum of those of them that a transaction of the chain spends |
| `IndexerReceipts.ChainTotals` | crates/subcoin-indexer/src/queries.rs:107-152 | both, and the confirmed balance as their difference, for every way to cut such a chain into batches |
| `IndexerReceipts.AnyBatching` | crates/subcoin-indexer/src/db.rs:421-693 | such a chain may be cut into batches anywhere without changing the tables |
| `IndexerMeaning.BlockOfChain` | crates/subcoin-indexer/src/db.rs:602-617 | every block has a row at its height with its hash and time |
| `IndexerMeaning.BlockIsOfChain` | crates/subcoin-indexer/src/db.rs:602-617 | and there are no other block rows |
| `IndexerMeaning.TxOfChain` | crates/subcoin-indexer/src/db.rs:619-632 | every transaction has a row with its height and its place in the block |
| `IndexerMeaning.TxIsOfChain` | crates/subcoin-indexer/src/db.rs:619-632 | and there are no other transaction rows |
| `IndexerMeaning.OutputsOfChain` | crates/subcoin-indexer/src/db.rs:634-669 | the outputs table holds exactly the outputs of the chain with their address, value, script and height; an output is marked if and only if it pays an address and a transaction names it, and then with that transaction, the position of the input and the height |
| `IndexerMeaning.HistoryOfChain` | crates/subcoin-indexer/src/db.rs:671-690 | a transaction has a history row for an address if and only if it pays the address or spends from it, and its delta is what the outputs pay the address less what the inputs take from it |
| `IndexerMeaning.HistoryIsOfChain` | crates/subcoin-indexer/src/db.rs:671-690 | and there are no other history rows |
| `IndexerVerified.VerifiedBalances` | crates/subcoin-indexer/src/queries.rs:107-152 | the drift and its exact condition for every verified and applied chain, repeated txids included |
| `IndexerVerified.VerifiedBatches` | crates/subcoin-indexer/src/db.rs:421-693 | the same for the batches such a chain is committed in, unless a batch spends an output before making it again |
| `IndexerVerified.BatchMarksRemade` | crates/subcoin-indexer/src/db.rs:500-693 | an instance: a batch that makes, spends and makes an output again marks the new row as spent, which one transaction at a time does not |
| `IndexerVerified.RepeatedRewardUnbalances` | crates/subcoin-indexer/src/db.rs:569-596 | an instance: one coinbase txid paying 50 at two heights; history 100, unspent outputs 50 |
| `IndexerVerified.VerifiedIsValid` | crates/sc-consensus-nakamoto/src/verification.rs:376-609 | a verified and applied chain with distinct, non-zero txids is valid for the indexer theorems |
| `IndexerVerified.RestartsBalance` | crates/subcoin-indexer/src/indexer.rs:64-198 | whenever a run of crashing starts completes on such a chain, every address balances |
| `MempoolArena.KeyIsNegatedScore` | crates/subcoin-mempool/src/arena.rs:425-445 | the cached key really is the negated feerate score: the negation never overflows |
| `MempoolArena.VsizeOf` | crates/subcoin-mempool/src/arena.rs:126-128 | the virtual size is the weight over four, rounded up |
| `MempoolArena.FeerateRounds` | crates/subcoin-mempool/src/arena.rs:131-147 | a feerate is the wrapped fee in millionths over the size, rounded toward zero |
| `MempoolArena.WrapIsCongruent` | crates/subcoin-mempool/src/arena.rs:131-147 | wrapping moves a number by whole multiples of 2^64 into the signed range |
| `MempoolArena.DescendantScore` | crates/subcoin-mempool/src/arena.rs:436-445 | the higher of the own feerate and that of the cached descendant totals |
| `MempoolArena.OrderFollowsScore` | crates/subcoin-mempool/src/arena.rs:17-24 | the key order of the ancestor index is falling score, then rising ancestor size, then rising txid |
| `MempoolArena.FeeChangeIsExact` | crates/subcoin-mempool/src/arena.rs:325-332 | the detour through unsigned words changes the totals by exactly the change of fee |
| `MempoolArena.Walk` | crates/subcoin-mempool/src/arena.rs:383-406 | a sorted index is walked completely, once per element, in key order |
| `MempoolArena.Arena.Insert` | crates/subcoin-mempool/src/arena.rs:204-226 | adds the entry under a new id with fresh keys; all five indices still agree with the entries |
| `MempoolArena.Arena.UpdateAncestorState` | crates/subcoin-mempool/src/arena.rs:231-271 | moves the ancestor totals and re-keys the entry; all indices still agree, no stale key is left |
| `MempoolArena.Arena.UpdateDescendantState` | crates/subcoin-mempool/src/arena.rs:274-305 | moves the descendant totals; touching only the descendant index is enough |
| `MempoolArena.Arena.UpdateModifiedFee` | crates/subcoin-mempool/src/arena.rs:308-343 | replaces the fee and re-keys; all indices still agree |
| `MempoolArena.Arena.AddChild` | crates/subcoin-mempool/src/validation.rs:439-443 | a new child link leaves every key and index valid |
| `MempoolArena.Arena.Remove` | crates/subcoin-mempool/src/arena.rs:368-381 | removes the entry from storage and all indices, or reports none |
| `MempoolArena.Arena.IterByAncestorScore` | crates/subcoin-mempool/src/arena.rs:386-390 | lists every live entry once, by falling min(own feerate, cached ancestor feerate), then by ancestor size, then by txid |
| `MempoolArena.Arena.FirstByDescendantScore` | crates/subcoin-mempool/src/arena.rs:395-399 | none exactly when the pool is empty; otherwise an entry of highest max(own feerate, descendant feerate), and among those the one of smallest descendant size, then the oldest; it is also of lowest score if and only if all are equal |
| `MempoolGraph.Visit` | crates/subcoin-mempool/src/inner.rs:86-111 | the shared-visited-set walk terminates on every graph, cycles and dead ids included; what it adds is reachable and fully explored |
| `MempoolGraph.CalculateDescendants` | crates/subcoin-mempool/src/inner.rs:86-96 | from a closed set, adds exactly everything reachable over child links |
| `MempoolGraph.CalculateAncestors` | crates/subcoin-mempool/src/inner.rs:101-111 | from a closed set, adds exactly everything reachable over parent links |
| `MempoolGraph.ExpandToDescendants` | crates/subcoin-mempool/src/lib.rs:249-253 | repeated walks over one set accumulate the union of the closures |
| `MempoolGraph.CollectSurvivingChildren` | crates/subcoin-mempool/src/inner.rs:252-269 | exactly the live children of entries to remove that are not removed themselves; there are none exactly when the removal set is closed |
| `MempoolLinks.ExtendKeepsLinks` | crates/subcoin-mempool/src/validation.rs:374-443 | accepting keeps: parents live, older and exactly the earlier live entries spent from, live children exactly the strict descendants |
| `MempoolLinks.LinksSurviveIff` | crates/subcoin-mempool/src/inner.rs:120-149 | a removal keeps that if and only if the set removed is closed under live descent |
| `MempoolLinks.DescendantsOf` | crates/subcoin-mempool/src/inner.rs:86-96 | the descendant walk from a live entry finds, among live ids, exactly those that have it as an ancestor |
| `MempoolLimits.ExtendKeepsLimits` | crates/subcoin-mempool/src/validation.rs:283-337 | a transaction that passed the limit check leaves every entry within the ancestor limits, and the cached descendant totals above the true ones and within the limits |
| `MempoolLimits.RemovalKeepsLimits` | crates/subcoin-mempool/src/inner.rs:120-149 | a removal closed under descent keeps all of that |
| `MempoolTotals.AcceptKeepsTotals` | crates/subcoin-mempool/src/validation.rs:385-464 | accepting keeps: cached ancestor count, size and fees of every entry are the true ones plus what the descendant totals hold beyond the entry itself |
| `MempoolTotals.RemovalKeepsTotals` | crates/subcoin-mempool/src/inner.rs:120-149 | a removal closed under descent keeps that |
| `MempoolTotals.BumpedTotals` | crates/subcoin-mempool/src/validation.rs:448-468 | what each ancestor of a new transaction gains: a child, one in both counts, its size, fee and signature operations |
| `MempoolTotals.NewFields` | crates/subcoin-mempool/src/validation.rs:385-430 | the totals of the new entry: itself alone below, itself and all its ancestors above, signature operations included |
| `MempoolTotals.SumsAddUp` | crates/subcoin-mempool/src/validation.rs:385-399 | the sums behind them start at zero and add the rounded-up size, the modified fee and the signature operations of each entry |
| `MempoolTotals.TotalsAreExactIff` | crates/subcoin-mempool/src/validation.rs:448-464 | the ancestor count and size are exact if and only if nothing was ever accepted below the entry, the fees if and only if nothing accepted below it paid any |
| `MempoolTotals.ScoreIsBlended` | crates/subcoin-mempool/src/arena.rs:425-445 | the ancestor score is the smaller of the own feerate and that of ancestors and accepted descendants together |
| `MempoolTotals.ScoreIsTrueIff` | crates/subcoin-mempool/src/arena.rs:425-445 | it is the true ancestor score if and only if the two ancestor feerates agree or the own feerate is at most both |
| `MempoolTotals.ChildlessScoreStands` | crates/subcoin-mempool/src/arena.rs:425-445 | in particular for an entry below which nothing was ever accepted |
| `MempoolInstances.StrangerOvertakes` | crates/subcoin-mempool/src/arena.rs:386-390 | a valid pool in which a parent with the higher true ancestor score is listed after a stranger |
| `MempoolInstances.ParentCountsItsChild` | crates/subcoin-mempool/src/validation.rs:448-456 | a valid pool of a parent and its child in which the parent counts two ancestors and has one |
| `MempoolSpends.NoDoubleSpend` | crates/subcoin-mempool/src/validation.rs:470-474 | no two live transactions spend the same outpoint |
| `MempoolAccept.InsertEntry` | crates/subcoin-mempool/src/validation.rs:402-468 | the entries become those specified: the new entry, linked below all its ancestors and added to both their totals; it carries the transaction, fees, signature operations, lock points, coinbase flag, time and height that came with it, and all others keep theirs |
| `MempoolAccept.AcceptedSelf` | crates/subcoin-mempool/src/validation.rs:402-430 | that last part for the specified entries |
| `Mempool.MemPool.RemoveOne` | crates/subcoin-mempool/src/inner.rs:134-149 | one removal keeps the spend map, the unbroadcast set, the size total and the indices in agreement with the entries |
| `Mempool.MemPool.RemoveStaged` | crates/subcoin-mempool/src/inner.rs:120-160 | removes exactly the set and exactly its unbroadcast marks and rebuilds the relay list; keeps agreement always, and every pool invariant if the set is closed under descent |
| `Mempool.MemPool.TrimToSize` | crates/subcoin-mempool/src/inner.rs:163-177 | terminates at or below the bound, keeping every invariant; exactly the clusters of entries that were first in the descendant index while the pool was still too large are gone; each of these had the lowest score if and only if nothing was evicted or all scores were equal before the call |
| `MempoolInstances.DearGoesFirst` | crates/subcoin-mempool/src/inner.rs:163-177 | a valid pool of two unrelated transactions of one size; the one that pays a hundred times as much is evicted first |
| `Mempool.MemPool.Expire` | crates/subcoin-mempool/src/inner.rs:180-196 | removes exactly the entries whose time is before the cutoff; all invariants of the pool survive if and only if that set is closed under descent |
| `MempoolInstances.ExpiryOrphansChild` | crates/subcoin-mempool/src/inner.rs:180-196 | a valid pool in which expiry takes a parent and leaves its child |
| `MempoolInstances.OrphanPanics` | crates/subcoin-mempool/src/validation.rs:316-321 | after that, a transaction that spends from the child has a dead ancestor and room below the live one, which is where the look-up panics |
| `Mempool.MemPool.RebuildList` | crates/subcoin-mempool/src/inner.rs:199-209 | the relay list holds every live entry once, in mining order |
| `Mempool.ScoreOrderIsRelayOrder` | crates/subcoin-mempool/src/inner.rs:199-209 | in a pool that keeps its totals that is falling blended score, and falling true ancestor score among entries whose score stands |
| `Mempool.MemPool.ListIsCurrentIff` | crates/subcoin-mempool/src/inner.rs:157-160 | the stored list names every live entry if and only if nothing was accepted since the last removal |
| `Mempool.MemPool.CollectConflicts` | crates/subcoin-mempool/src/lib.rs:284-296 | exactly the live entries that spend an outpoint of the transaction |
| `Mempool.MemPool.RemoveForBlock` | crates/subcoin-mempool/src/lib.rs:225-279 | removes exactly the descendants of confirmed and conflicting entries; afterwards nothing live is confirmed or in conflict with the block; in a valid pool an entry is gone if and only if it or an ancestor was confirmed or in conflict |
| `Mempool.MemPool.RemoveConflicts` | crates/subcoin-mempool/src/lib.rs:302-341 | removes exactly the descendants of conflicting entries; afterwards nothing live is in conflict; in a valid pool an entry is gone if and only if it or an ancestor was |
| `Mempool.MemPool.RemoveForReorg` | crates/subcoin-mempool/src/lib.rs:352-451 | every survivor that spends a coinbase entered at least 100 blocks below the new tip, and its lock height, lock time and input block hold there; in a valid pool an entry is gone if and only if it or an ancestor breaks one of these; the relay list is rebuilt if and only if an entry does |
| `Mempool.MemPool.FindAncestors` | crates/subcoin-mempool/src/validation.rs:374-383 | parents are the live entries spent from, and ancestors everything above them, dead ids included |
| `Mempool.MemPool.CheckPackageLimits` | crates/subcoin-mempool/src/validation.rs:283-337 | accepts exactly when all ancestors are live and there is room below them; errors name a limit that is exceeded and carry the exact count or size; it panics only on a dead ancestor, and surely if there is one and the live ones have room |
| `Mempool.MemPool.AncestorTotals` | crates/subcoin-mempool/src/validation.rs:385-399 | exact totals over the ancestors, or a fee overflow exactly when the fees exceed 64 bits |
| `Mempool.MemPool.FinalizeTx` | crates/subcoin-mempool/src/validation.rs:344-490 | the exact new state in all three outcomes, the fields of the new entry and of all others included; the fee total stays exact if and only if adding the fee fits 64 bits |
| `MempoolFees.FeesAreBacked` | crates/subcoin-mempool/src/validation.rs:470-490 | where every fee is inputs minus outputs, the fees of all live transactions together are at most the worth of the confirmed coins that the pool spends |
| `MempoolFees.FeeTotalFitsOnChain` | crates/subcoin-mempool/src/validation.rs:477-484 | so adding the fee of a further transaction never overflows the fee total while those coins are unspent on a chain of verified and applied blocks |
| `MempoolBacked.HonestRun` | crates/subcoin-mempool/src/lib.rs:105-451 | over any run of honest offers while a verified chain grows, no call reports an overflow and the fee total stays exact, unless an expiry leaves an orphan |
| `Mempool.MemPool.CheckRbfPolicy` | crates/subcoin-mempool/src/validation.rs:567-685 | accepts exactly when the stated replacement rules hold, and returns the conflicts with all descendants; an error names a rule that is broken |
| `Mempool.ReplacesIff` | crates/subcoin-mempool/src/validation.rs:567-685 | those rules spelled out for a pool with sound links: some live entry is in conflict, all conflicts signal, at most so many entries fall with them, none of the entries spent from stays, and the fee exceeds all that falls by the relay rate for either size |
| `Mempool.FreeReplacesNothing` | crates/subcoin-mempool/src/validation.rs:648-654 | a transaction that pays nothing replaces nothing |
| `Mempool.MemPool.PreChecks` | crates/subcoin-mempool/src/validation.rs:103-169 | passes exactly when the outside checks pass, the ids are new and no live entry is in conflict, whatever the replacement options; an error names the first of these that fails, or the replacement rule |
| `Mempool.MemPool.AcceptSingle` | crates/subcoin-mempool/src/lib.rs:105-178 | joins exactly when every check passes, and otherwise changes nothing; the new entry carries the fee, signature operations, lock points and coinbase flag that the checks found and the time and height of the call, and all others keep theirs; panics only on a dead ancestor, and surely when nothing else is in the way |
| `Mempool.MemPool.Run` | crates/subcoin-mempool/src/lib.rs:105-451 | over every sequence of calls, expiry included, books, indices and relay list agree with the entries, and the fee total is exact unless a call reported an overflow; as long as no expiry leaves an orphan all invariants hold and nothing panics; every live entry was there at the start or is what one of the calls asked for, and has survived every call since |
| `Mempool.OutlivesNothing` | crates/subcoin-mempool/src/lib.rs:225-451 | so after any run nothing admitted at height h that spends a coinbase outlives a reorganisation to a tip below h + 100, nor one that its locks or input block do not stand, nor an expiry it is too old for, nor a block that confirms it or spends what it spends |
| `Mempool.RemovedIsGone` | crates/subcoin-mempool/src/inner.rs:86-96 | removing the closure of what does not survive a call removes exactly the entries that have such an ancestor, themselves included |
| `PackageSort.BuildEdges` | crates/subcoin-mempool/src/validation.rs:721-741 | a child is listed below an in-package parent exactly as often as it spends outputs of that parent, and in-degrees count these edges |
| `PackageSort.Release` | crates/subcoin-mempool/src/validation.rs:755-763 | each edge released lowers a degree that is positive, and a txid joins the queue exactly when its last edge goes |
| `PackageSort.Kahn` | crates/subcoin-mempool/src/validation.rs:743-764 | emits txids once each, parents first; whatever is left waits for something that is left |
| `PackageSort.TopologicalSortPackage` | crates/subcoin-mempool/src/validation.rs:710-772 | succeeds if and only if txids are distinct and the spend graph is acyclic; then a permutation with every parent before all its children |
| `ForkChoice.LookupsNeverFail` | crates/sc-consensus-nakamoto/src/block_import.rs:334-379 | no work lookup ever fails, and the decision compares true cumulative works |
| `ForkChoice.RankedGrows` | crates/sc-consensus-nakamoto/src/block_import.rs:357-376 | importing a block keeps: the best block is the first imported among those of most work |
| `ForkChoice.ImportBothWays` | crates/sc-consensus-nakamoto/src/block_import.rs:334-379 | two nodes that import the same blocks in two orders, each block after its parent, end with the same block tree and with best blocks of the same work |
| `ForkChoice.Importer.ImportBlock` | crates/sc-consensus-nakamoto/src/block_import.rs:461-523 | known blocks and orphans are refused, others stored with the sum of works back to genesis, and the best block is again the first of most work |
| `ForkChoice.Importer.ImportAll` | crates/sc-consensus-nakamoto/src/block_import.rs:461-523 | for every sequence of imports the known blocks are those accepted on a known parent, and the best block has the most work of all of them |
| `Residues.Fermat` | crates/subcoin-crypto/src/muhash.rs:63-65 | Fermat's little theorem, which makes the power p - 2 an inverse |
| `MuHash.PowerIsInverse` | crates/subcoin-crypto/src/muhash.rs:63-65 | the denominator times its power p - 2 is one modulo the prime |
| `MuHash.ValueIsMultisetDifference` | crates/subcoin-crypto/src/muhash.rs:45-70 | the hashed value depends only on the multiset difference of inserted and removed elements |
| `MuHash.CancelsIfInvertible` | crates/subcoin-crypto/src/muhash.rs:46-59 | inserting and removing an element cancels if and only if it is non-zero modulo the prime, or the value was zero already |
| `MuHash.MuHash3072.InsertData` | crates/subcoin-crypto/src/muhash.rs:46-51 | the numerator stays the product of everything inserted |
| `MuHash.MuHash3072.RemoveData` | crates/subcoin-crypto/src/muhash.rs:54-59 | the denominator stays the product of everything removed |
| `MuHash.MuHash3072.DigestValue` | crates/subcoin-crypto/src/muhash.rs:62-66 | the value times what was removed is what was inserted, modulo the prime |

## Left out

- Network, RPC, CLI, metrics, informant, explorer, the forked executive pallet: I/O and orchestration.
- Script interpretation, signatures, merkle root, witness commitment, hashing, address derivation: passed in as functions.
- Header checks, difficulty and proof of work: the model starts from accepted headers with their work.
- Chain sync, peer selection and block download.
- Package acceptance beyond the sort: only `topological_sort_package` is modelled.
- The coins cache of the mempool and its overlay: what it says of a transaction's inputs is a parameter of `AcceptSingle`.
- Priority deltas and the rolling minimum fee of the mempool: not read by the modelled operations.
- `update_child_for_removed_ancestors`: it only runs on a replacement, which is never accepted, and on closed sets has nothing to do.
- Mempool.MemPool.Expire: collects the expired set directly instead of walking the time index and stopping at the first younger entry; the set is the same.
- Mempool.MemPool.FinalizeTx: sizes, counts and fee totals of entries are unbounded; only the two additions that the source checks can overflow.
- Mempool.MemPool.RemoveForReorg: heights are unbounded, so neither the saturating addition to the entry height nor the signed reading of a tip height of 2^31 or more is modelled; the coins cache is not part of the pool here.
- MempoolArena.Arena.UpdateAncestorState: the signed conversion of fees is not bounded to 64 bits; a negative total is excluded, as the source demands.
- IndexerNotify.Notify: the route is a parameter; in which order a route lists its blocks is up to a library that is not part of this model. A database error on a single block is left out.
- IndexerNotify.Follow: that an unfaithful route fails is shown for branches whose first block had a transaction of its own.
- MempoolBacked.HonestRun: reorganisations are left out of these runs, because the source does not check that the coins of surviving transactions still exist.
- IndexerVerified.VerifiedBatches: a batch that spends an output and then makes it again is left out, because it marks the new row as spent, as IndexerVerified.BatchMarksRemade shows.
- IndexerTables.OutputAfter: spends of outputs without an address are not marked, as in the source.
- IndexerResume.Indexer.Restarts: the chain only grows while historical indexing runs; reorganisations are live-mode events.
- SQL chunk sizes, connection pools, timing, progress logs, lock poisoning.
- MuHash.MuHash3072.DigestValue: stops at the number that is hashed; that 2^3072 - 1103717 is prime is an assumption of the theorems.
- ForkChoice.Importer.ImportBlock: block status queries and the verifier are one accept flag; works are unbounded and positive.
- Encoding of works in auxiliary storage.

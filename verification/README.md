# Verification of the explorer's chain index

The explorer keeps a relational index of an Elements-style chain: blocks, transactions, inputs,
outputs with spent markers, issuances, asset rows with aggregate supply, and address history. An
indexer process follows an untrusted node, applies hash-linked batches of blocks, and rolls the tip
back when the branch changes. These modules model that index and that process in Dafny and prove
that the index always is what it claims to be: the same tables a fresh index of the current chain
would hold, whatever happened on the way.

    dafny verify dfyconfig.toml

checks everything.

## Layout

| files | what they hold |
|---|---|
| `Common`, `ChainModel` | shared values; blocks as the node reports them |
| `Tables` | the tables as a value, and the effect of every SQL statement of `explorer/store.go` |
| `Store` | the store as objects that change tables in loops, each method proved equal to `Tables` |
| `Operations`, `Invariants` | a block as a flat list of row operations; what every committed state satisfies |
| `Reorg`, `Batches`, `History` | rollback against apply, splitting batches, whole runs |
| `Exactness`, `Mirror` | what the rows mean; a bijection with the chain |
| `Columns`, `Acceptance` | every column in the fields of the blocks; exactly which chains can be indexed |
| `DoubleSpend`, `Overflow` | where rollback is not an inverse, and where it fails |
| `Indexer`, `IndexerSafety` | one step of the process, and its safety for arbitrary answers |
| `Decisions` | exactly when a step applies, rolls back or idles, in the raw answers; status and policy asset over runs |
| `Runs`, `Convergence` | whole runs of the process, and its behaviour against nodes that follow one chain |
| `Listings`, `BlockReader`, `AddressReader`, `AssetReader`, `Pages` | paged reads, and what their pages show of the chain |
| `Telemetry`, `NetworkSummary` | the vote on the canonical tip, the states and counters of the nodes |
| `Subsidy`, `Amounts` | the halving schedule, decimal amounts |
| `Words`, `Sha256`, `Compression` | the SHA-256 compression |
| `AssetId`, `Identifiers` | the identifiers derived with it, as texts and as compressions of literal leaves |
| `Explorer` | the store configured with the explorer's own schedule, parser and derivation |

A SQL transaction commits as a whole or changes nothing. A statement that breaks a primary key, the
UNIQUE block hash or an amount makes the transaction fail (`None`). Columns that are stored and shown
but never read by the logic travel in one `payload` per row. The answers of the node, the outcome of
reads and commits, the clock, and the library's SHA-256 are parameters. Each answer within one step is
independent of the others, as it is when the pool fails over between two calls.

## Model

| member | source | states |
|---|---|---|
| `History.HistoryIndependence` | explorer/store.go:173-527 | After every run of batches, rollbacks, failed transactions and crashes, for issuance amounts of any sign, the tables equal a fresh index of the current chain from genesis; asked are consecutive heights of committed batches and that a block that is rolled back spent nothing an earlier block spends. |
| `History.SameChainSameTables` | explorer/store.go:173-527 | Two such runs that end on the same nonempty chain end on the same tables, the cursor and genesis hash included. |
| `History.RunHolds` | explorer/store.go:173-527 | The same for runs that start from any state that already is a fresh index of its chain. |
| `History.OrderlyRun` | explorer/store.go:173-527 | In runs that may roll back anything, only consecutive heights asked: heights stay contiguous, the cursor is on the top row, all totals are current and the block rows are those of the chain. |
| `History.IndexRefold` | explorer/store.go:173-205 | Where explicit issuance amounts are not negative, a fresh index of c followed by bs is the fresh index of c with bs applied on top, failures included. |
| `History.IndexOnTop` | explorer/store.go:173-205 | For any amounts: once c can be indexed, a fresh index of c followed by bs succeeds exactly when bs can be applied on top of it, with the same tables. |
| `History.BatchSizeIndependence` | explorer/store.go:183-191 | Applying a ++ b in one batch equals applying a and then b: the same tables, and success exactly when the parts succeed, where explicit issuance amounts are not negative. |
| `Batches.BatchSplit` | explorer/store.go:173-205 | The same for any amounts whatever, once a is applied. |
| `Batches.BatchSplitsWhen` | explorer/store.go:173-205 | For any amounts: a batch that commits can be cut after a exactly when the sums at the cut fit in 64 bits. |
| `History.RollbackHolds` | explorer/store.go:462-527 | Rolling back the tip of an indexed chain commits exactly when the chain below it has a fresh index of its own, and then leaves exactly that index, provided the tip spends nothing an earlier block spends. |
| `History.RollbackToIndex` | explorer/store.go:462-527 | Where the chain below can be indexed, the rollback leaves its fresh index exactly when the tip refers to no output that carries a marker there. |
| `History.CleanRollbackCommits` | explorer/store.go:462-527 | Without negative issuance amounts the rollback of such a tip never fails. |
| `Reorg.RollbackUndoesApply` | explorer/store.go:213-527 | Applying one block at the tip and rolling it back restores every table and the cursor exactly when the block spends no output that already carries a marker; rolling back genesis leaves only the genesis hash behind. |
| `Reorg.WhatARollbackRemoves` | explorer/store.go:462-522 | For any height: its rows of every table go and no others, and markers set at it, and no others, are cleared. |
| `DoubleSpend.SecondSpendIsNotUndone` | explorer/store.go:317-321 | A concrete hash-linked chain of three blocks whose last block spends an output twice: its rollback does not restore the index. |
| `Invariants.ApplyKeepsWellFormed` | explorer/store.go:173-205 | A batch of consecutive blocks keeps heights contiguous, the cursor on the top row, every asset row anchored in its first issuance and all totals current, and stores exactly one row per block. |
| `Invariants.RollbackKeepsWellFormed` | explorer/store.go:462-527 | Rolling back the tip commits exactly when the amounts of every asset issued there still add up within 64 bits without it; then the same invariants hold with one block less and the rows below are untouched. |
| `Overflow.NegativeAmountsBreakBoth` | explorer/store.go:425-441 | A concrete hash-linked pair of blocks with negative issuance amounts: they commit as one batch, the first alone is refused, and the tip of the well-formed index they leave cannot be rolled back. |
| `Invariants.RefreshCompletes` | explorer/store.go:425-458 | Refreshing the touched assets makes every total current; skipping assets without issuances never leaves a stale row. |
| `Operations.TransactionsAsOps` | explorer/store.go:213-363 | The nested loops over transactions, inputs and outputs perform one flat list of row operations in order. |
| `Mirror.BlockOpsAre` | explorer/store.go:213-363 | That list holds one operation per transaction, input and output of the block and nothing else. |
| `Mirror.TxOpsInOrder` | explorer/store.go:252-363 | Of a transaction the row comes first, then its inputs and then its outputs, each in their order. |
| `Mirror.BlockOpsInOrder` | explorer/store.go:213-223 | And the operations of a block follow the order of its transactions. |
| `Mirror.ChainIsStored` | explorer/store.go:252-400 | Every transaction, input, output and issuance of every block of the chain has its row, and no later insert changes more of it than a spent marker (`Columns` says what the rows hold). |
| `Mirror.BlockFeesAreRowFees` | explorer/store.go:213-233 | The fee column of a block is the 64-bit sum of the policy fees its non-coinbase transaction rows show (`Columns.BlockColumns` says it in the fields of the block). |
| `Mirror.NothingElseIsStored` | explorer/store.go:252-400 | The row tables hold nothing that is not in the chain. |
| `Mirror.RowIsPlaced` | explorer/store.go:292-299 | Every transaction row is filed under the height and position its transaction has in the chain. |
| `Mirror.PlaceIsFiled` | explorer/store.go:292-299 | And every place of the chain has its row. |
| `Columns.TransactionColumns` | explorer/store.go:252-299 | Every column of a transaction row in the fields of the block: place, time, the coinbase flag from the first input, the three flags, every fee parsed, zero fees dropped, the policy fee in its own column. |
| `Columns.CoinbaseIsFirstInput` | explorer/store.go:253-309 | A transaction is flagged as a coinbase exactly when its first input row is. |
| `Columns.InputColumns` | explorer/store.go:301-327 | Every column of an input row; it names a spent output exactly when it is no coinbase and gives transaction and number. |
| `Columns.OutputColumns` | explorer/store.go:329-357 | Every column of an output row: asset, commitments, the parsed amount or NULL, the address by its two sources, the fee flag. |
| `Columns.IssuanceColumns` | explorer/store.go:365-400 | Every column of an issuance row; an amount that is neither explicit nor blinded is nought. |
| `Columns.AssetColumns` | explorer/store.go:402-421 | The row of an asset is fixed by the earliest first issuance of the chain, in all columns the issuance gives, whatever later ones say. |
| `Columns.BlockColumns` | explorer/store.go:213-233 | Every column of a block row; its fees are the 64-bit sum of the parsed policy fees of its transactions without a coinbase first input. |
| `Acceptance.WhichChainsAreIndexed` | explorer/store.go:173-458 | Exactly which chains have an index: every amount can be read, no two records claim one row, no two blocks share a hash, and the explicit amounts of every asset and its tokens add up within 64 bits. |
| `Exactness.ReachableExact` | explorer/store.go:236-321 | In every reachable state of a soundly spending chain an output is marked by an input exactly when that input is indexed at that height and references it, and address history has one row per address and transaction exactly where the transaction pays the address or spends from it, with the transaction's own height and position. |
| `Exactness.SoundChainsNeverRespend` | explorer/store.go:317-321 | Chains that create outpoints before spending them and spend them once satisfy the condition of the rollback law. |
| `Exactness.SupplyIsHonest` | explorer/store.go:365-458 | In every committed state an asset row exists exactly while a first issuance is indexed; its supply is NULL exactly when a surviving issuance is blinded and otherwise the exact sum; its counts are those of the surviving issuances. |
| `Store.AggregateQuery` | explorer/store.go:425-441 | The aggregate query, row by row in any order, computes the counts and sums of one asset's issuances. |
| `Store.ScanFees` | explorer/store.go:269-278 | Fees are parsed, zero entries dropped, and one malformed amount fails the transaction. |
| `Store.ScanInputs` | explorer/store.go:254-262 | The issuance and peg-in flags are set exactly when some input has one. |
| `Store.ScanOutputs` | explorer/store.go:263-267 | The peg-out flag is set exactly when some output has one. |
| `Store.SqlTransaction.InsertIssuance` | explorer/store.go:365-421 | The issuance row, the first-wins asset row and the touched asset, or failure. |
| `Store.SqlTransaction.InsertInput` | explorer/store.go:301-327 | The input row and the marker on the output it spends, before the issuance. |
| `Store.SqlTransaction.InsertOutput` | explorer/store.go:329-357 | The output row, unspent, or failure on a taken key or a malformed amount. |
| `Store.SqlTransaction.InsertTransaction` | explorer/store.go:252-363 | A transaction row, then all inputs, then all outputs; and the policy fee it adds, none for a coinbase. |
| `Store.SqlTransaction.InsertTransactions` | explorer/store.go:217-223 | The loop over a block's transactions, with the 64-bit fee accumulator. |
| `Store.SqlTransaction.InsertBlock` | explorer/store.go:213-250 | Transactions, then the block row, then the two address joins. |
| `Store.SqlTransaction.RefreshAssets` | explorer/store.go:425-458 | Exactly the touched assets that still have issuances get recomputed totals; a sum outside 64 bits fails. |
| `Store.SqlTransaction.DeleteHeight` | explorer/store.go:487-501 | The eight height-keyed statements of a rollback. |
| `Store.SqlTransaction.MoveCursorToTop` | explorer/store.go:506-522 | The cursor keys name the greatest remaining height, or are deleted when no block remains. |
| `Store.Database.ApplyBlocks` | explorer/store.go:173-205 | One atomic transaction for a batch: the specified tables on commit, unchanged tables otherwise. |
| `Store.Database.RollbackBlock` | explorer/store.go:462-527 | One atomic transaction that removes a height, and the cursor it returns. |
| `Store.Database.ReadCursor` | explorer/store.go:143-160 | Height -1 and no hash exactly when no height is stored, whatever hash is; otherwise the stored height and the stored hash. |
| `Indexer.IndexerProcess.Update` | explorer/indexer.go:90-112 | Lag, synchronized and indexing are recomputed with every mutation once a chain height is known. |
| `Indexer.IndexerProcess.ResolvePolicyAsset` | explorer/indexer.go:281-298 | The policy asset is learnt before it is saved, and a refused save fails the step with the asset learnt. |
| `Indexer.IndexerProcess.RollbackOne` | explorer/indexer.go:300-312 | The store's rollback and the status it leaves, or no change. |
| `Indexer.IndexerProcess.ApplyBatch` | explorer/indexer.go:265-276 | The batch and the status it leaves, or no change. |
| `Indexer.IndexerProcess.Requests` | explorer/indexer.go:226-229 | One request for every height of the range, in order. |
| `Indexer.IndexerProcess.FetchRange` | explorer/indexer.go:226-244 | The two batched calls, and no blocks when either fails. |
| `Indexer.IndexerProcess.Advance` | explorer/indexer.go:217-276 | Fetching and checking the batch above the cursor leads to the planned action. |
| `Indexer.IndexerProcess.Link` | explorer/indexer.go:246-276 | The linked prefix of the batch is applied; a break at its first block rolls the tip back. |
| `Indexer.IndexerProcess.TakeStep` | explorer/indexer.go:176-277 | The whole step carries out the transition function, for arbitrary answers and for every combination of refused saves and refused commits. |
| `Indexer.IndexerProcess.constructor` | explorer/indexer.go:51-82 | A new process resumes from the stored cursor and the configured or saved policy asset; what it cannot read it starts without. |
| `IndexerSafety.PlanIsSafe` | explorer/indexer.go:196-264 | Whatever the node answered, a planned batch continues the cursor block by block and a planned rollback is at the cursor. |
| `Decisions.WhatABatchLeadsTo` | explorer/indexer.go:246-264 | Exactly: the blocks that continue the cursor are applied when the batch ends or changes branch behind them; a change of branch at its first block rolls back; a wrong height at the first block that does not continue fails with nothing applied. |
| `Decisions.WhenATipIsRolledBack` | explorer/indexer.go:196-264 | In the raw answers of the node: exactly when the stored tip has left its chain, or the batch given above it starts at the next height with another predecessor. |
| `Decisions.WhenBlocksAreApplied` | explorer/indexer.go:196-276 | Exactly when the node still has the stored tip, is asked for blocks above it and gives plausible ones, and then exactly those that continue the cursor. |
| `Decisions.WhenAStepIdles` | explorer/indexer.go:196-224 | Exactly at the announced tip with its mempool replaced, or when no block is left to ask for. |
| `IndexerSafety.StepKeepsShape` | explorer/indexer.go:176-277 | Every step keeps indexed heights exactly 0..cursor, hash-linked, with the cursor on the top row; it extends the index without changing a row, or drops the tip, or changes no table. |
| `IndexerSafety.StepTracks` | explorer/indexer.go:90-312 | Every step keeps the status recomputed; after it the status names the stored cursor exactly when it did before or the step moved the index. |
| `IndexerSafety.EveryReachableStateIsSafe` | explorer/indexer.go:114-312 | Both hold after every run of steps and restarts from an empty database, every answer, refused write and crash arbitrary. |
| `IndexerSafety.TraceSafe` | explorer/indexer.go:114-312 | And from every safe state. |
| `IndexerSafety.TraceNamesCursor` | explorer/indexer.go:51-312 | After any run the status names the stored cursor exactly when the last restart or move of the index was not a restart that failed to read the cursor of a nonempty index; with neither, as at the start. |
| `IndexerSafety.SynchronizedIsSound` | explorer/indexer.go:90-112 | Synchronized is reported only when the stored cursor is the tip the node last announced, with lag 0, and always then once the status names the cursor. |
| `Decisions.LagIsDistance` | explorer/indexer.go:90-112 | Once a height is announced the lag is the distance to it, nought when the index is ahead. |
| `Decisions.CountersBalance` | explorer/indexer.go:265-312 | As long as a process runs, blocks indexed minus reorganizations handled is what the index has grown by. |
| `Decisions.FirstAnswerIsKept` | explorer/indexer.go:281-298 | A process that knows no policy asset keeps the first plausible answer for ever, and saves it in that step or never. |
| `Decisions.SavedPolicyIsRecalled` | explorer/indexer.go:51-82 | A saved asset survives every answer and every restart that can read it. |
| `Decisions.ConfiguredPolicyWins` | explorer/indexer.go:51-82 | A configured asset wins over a saved one; without either none is known. |
| `Runs.SynchronizedMeansIndexed` | explorer/indexer.go:90-112 | After every run of steps and restarts from an empty database: when a hash names one block, synchronized means that the tables are exactly the fresh index of the linked chain that ends in the last reported best hash, with lag 0. |
| `Runs.StepIsStoreEvent` | explorer/indexer.go:176-298 | What a step does to the tables is one store event on the chain behind them, whether the policy asset was known, is learnt in the step, or could not be learnt or saved; that chain stays hash-linked. |
| `Runs.TraceHolds` | explorer/indexer.go:51-298 | After every run of steps and restarts, with or without a configured or readable policy asset, the tables are the fresh index of a hash-linked chain under the policy asset of the network. |
| `Runs.EveryRunHolds` | explorer/indexer.go:51-298 | In particular after every run from an empty database by a process that knows no policy asset yet. |
| `Convergence.Converges` | explorer/indexer.go:176-312 | Against nodes that follow one chain, from an index whose highest agreeing height is f, whatever calls and writes fail and whenever the process restarts: the steps that succeed are exactly cursor - f rollbacks, then the batches from the fork to the tip, then idle steps on the fresh index of that chain; all others change no table. Asked is that every cut from the fork on can be indexed and that no block above the fork spends what a block below it spends. |
| `Convergence.ServedStepsAllMove` | explorer/indexer.go:176-312 | When every call is answered and every write accepted no step fails, so those counts are counts of steps; a process that has yet to learn its policy asset takes no step more. |
| `Convergence.EventuallyConverges` | explorer/indexer.go:114-312 | If steps that nothing stands in the way of go on happening, the tables become the fresh index of the served chain and stay that for ever. |
| `Convergence.OrdinarySetting` | explorer/indexer.go:176-312 | Linked chains without negative issuance amounts and without outpoints spent by two blocks, each of which can be indexed, meet all that convergence asks of them. |
| `Convergence.BatchCountIsCeiling` | explorer/indexer.go:217-221 | The number of those batches is the distance divided by the batch size, rounded up. |
| `Convergence.ConvergedIsReported` | explorer/indexer.go:196-205 | Once there, the next served step reports synchronized exactly when the status names the cursor. |
| `Convergence.UnreadableRestartIsSilent` | explorer/indexer.go:51-82 | The failing run: a process that holds the chain of the node and is restarted while the cursor cannot be read never reports synchronized, however many steps follow. |
| `Convergence.NodeOfServes` | explorer/rpc.go:179-227 | A node that looks its answers up in a chain and knows its policy asset serves both: the assumption of convergence can be met. |
| `Listings.FollowingOffsetsListsAll` | explorer/queries.go:246-253 | Following NextOffset from 0, with any page sizes, reads the ordered rows without gap or repetition and stops exactly when the sizes cover them. |
| `Listings.ListingIsUnique` | explorer/queries.go:224-226 | An ORDER BY that decides every pair of rows has one listing only. |
| `Pages.PageSaysWhatWasAsked` | explorer/queries.go:246-253 | A page names limit, offset and total, and a next offset exactly while the 64-bit sum is below the total. |
| `BlockReader.BlockList` | explorer/queries.go:146-164 | Rows are collected in order; a row too many is cut off and becomes the next cursor. |
| `BlockReader.StableCursorWalk` | explorer/queries.go:129-165 | Following NextCursor with any page sizes while any consecutive batches go on being applied lists every block at or below the starting tip once, highest first, with unchanged rows, and ends exactly when the sizes cover them. |
| `BlockReader.BlockPagesListTheBlock` | explorer/queries.go:218-234 | In every reachable index the pages of a block list its transactions in the order of the chain. |
| `Pages.WalkShowsChain` | explorer/queries.go:129-165 | A finished walk over an index of a chain shows every block of it in the fields of the block, the tip first. |
| `AddressReader.AddressUtxos` | explorer/queries_more.go:113-127 | Every row is shown once, flagged confidential exactly when its amount is not explicit, with the page of the given offset. |
| `AddressReader.UtxoPagesListUnspent` | explorer/queries_more.go:102-128 | The pages of an address list each unspent output once, newest first, and stop. |
| `Pages.UtxosAreNewestFirst` | explorer/queries_more.go:106-108 | The pages go down in height, then up in transaction id and output number. |
| `Pages.UtxoShowsOutput` | explorer/queries_more.go:113-127 | An entry shows what the chain says of the output; it is confidential exactly when no amount is given. |
| `AddressReader.AddressSummary` | explorer/queries_more.go:40-81 | Unknown addresses are an error; otherwise one balance per asset row, received minus spent on 64 bits. |
| `AddressReader.BalanceEqualsPages` | explorer/queries_more.go:61-128 | Received minus spent is the sum over all unspent-output pages; the reported 64-bit balance equals it exactly when the sum fits. |
| `Pages.BalanceAddsUp` | explorer/queries_more.go:61-78 | Received, spent and both counts of a balance row, each added up over the outputs that pay the address explicitly in the asset. |
| `AddressReader.NoBalanceShowsNothing` | explorer/queries_more.go:61-128 | An asset without a balance row adds up to nothing on the pages. |
| `AddressReader.HistoryPagesListInvolved` | explorer/queries_more.go:83-100 | In every reachable index of a soundly spending chain the pages of an address list every transaction that pays it or spends from it, each once, latest first. |
| `Pages.HistoryIsLatestFirst` | explorer/queries_more.go:88-90 | An ordered history goes down in height, and within a block in position. |
| `AddressReader.UnknownMeansUnpaid` | explorer/queries_more.go:48-60 | An address is reported as unknown exactly when no indexed output pays it. |
| `AssetReader.AssetRecord.Describe` | explorer/queries_more.go:170-185 | The wording chosen from supply and token total. |
| `AssetReader.WordingIsHonest` | explorer/queries_more.go:168-185 | Supply is called verifiable exactly when no surviving issuance is blinded, and, with no negative amounts, fixed exactly when no surviving issuance made a token. |
| `Explorer.IndexedSubsidyIsCapped` | explorer/store.go:215-232 | After every run of consecutive batches and rollbacks, whatever is spent or issued, the subsidy column is the halving schedule and its total stays below twice the first era. |
| `Explorer.VerifiedFlagIsHonest` | explorer/store.go:402-420 | After any run whatever an asset is flagged as verified exactly when one entropy determines both identifiers its row shows. |
| `Telemetry.CountVotes` | explorer/telemetry.go:514-523 | One count per tip, online nodes that did not fail only. |
| `Telemetry.BestOf` | explorer/telemetry.go:524-532 | The fold over the counts yields the best entry for every iteration order. |
| `Telemetry.Canonical` | explorer/telemetry.go:513-533 | The tip with most votes, then the greater height, then the smaller hash; (-1, "") without voters. |
| `Telemetry.CanonicalIsOrderIndependent` | explorer/telemetry.go:513-533 | The result is the same for every permutation of the nodes and every iteration order. |
| `NetworkSummary.CanonicalIs` | explorer/telemetry.go:513-533 | In counts of nodes: the canonical tip is reported, none is reported more often, none as often and higher, none as often at its height with an earlier hash; without an answer it is the empty tip. |
| `Telemetry.MajorityWins` | explorer/telemetry.go:513-533 | A tip more than half of the voters report always wins. |
| `Telemetry.Classify` | explorer/telemetry.go:535-557 | The node at one index gets its state in place; offline and failed nodes keep theirs. |
| `Telemetry.Aggregate` | explorer/telemetry.go:451-502 | All nodes are classified against the canonical tip, and the node counters, chain name and latest block of the summary are those of the classified nodes. |
| `Telemetry.HealthyMeansCanonical` | explorer/telemetry.go:535-557 | After the pass an online node that answered is healthy or stale exactly when it holds the canonical pair and shows no fork. |
| `Telemetry.StatesSayWhereNodesStand` | explorer/telemetry.go:535-557 | For each of the five states of a node that answered, exactly when it has it, in its own fields: fork tip, height and hash against the canonical tip, and the saturated age of its latest block. |
| `NetworkSummary.CountersAre` | explorer/telemetry.go:471-499 | Every counter of the summary is the size of a set of nodes, in the fields they came with. |
| `NetworkSummary.ChainIsFirstNamed` | explorer/telemetry.go:474-477 | The chain of the summary is that of the first online node that names one. |
| `NetworkSummary.TimeIsLastGiven` | explorer/telemetry.go:496-498 | The latest block time is that of the last node which reports the canonical hash with a time. |
| `Telemetry.ClassifyingKeepsTheVote` | explorer/telemetry.go:451-557 | The pass never changes the outcome of the vote. |
| `Telemetry.CountersAreOrderIndependent` | explorer/telemetry.go:471-499 | No counter of the summary depends on the order of the nodes. |
| `Telemetry.SynchronizedCounts` | explorer/telemetry.go:488-490 | The synchronized counter is the number of votes for the tip exactly when no failed node carries that tip. |
| `Telemetry.FailedNodeCountsAsSynchronized` | explorer/telemetry.go:244-304 | A concrete case: one node whose answer could not be decoded is counted as synchronized. |
| `Subsidy.SubsidyAgreesWithEconomics` | explorer/elements.go:140-149 | The indexed subsidy equals the reported reward exactly when the initial reward is below 2^63 or the first era is over. |
| `Subsidy.NextHalvingIsLeastMultiple` | explorer/telemetry.go:559-572 | The next halving is the least multiple of the interval above the height exactly when that multiple fits in 64 bits. |
| `Subsidy.SupplyIsCapped` | explorer/elements.go:140-149 | The subsidies of heights 1..n add up to less than twice the first era, for every n. |
| `Subsidy.SubsidyHalves` | explorer/elements.go:140-149 | The indexed subsidy is the configured one in the first era, and one interval later it is half of what it was, rounded down, for ever; genesis has none. |
| `Subsidy.RewardHalvesToo` | explorer/telemetry.go:559-572 | So is the reported reward, and the reported era counts the halvings. |
| `Amounts.ScanComplete` | explorer/elements.go:14-28 | Every JSON number (section 6 of RFC 8259) is read as the number it spells. |
| `Amounts.ParseSatsExact` | explorer/elements.go:14-28 | A JSON number yields v exactly when its signed exponent fits in 64 bits and is within the library's limit, v fits in 64 bits, and the number its digits stand for by their places is v satoshis. |
| `Amounts.SmallFeeIsExact` | explorer/elements.go:9-12 | 3.647e-05 is 3647 satoshis. |
| `Amounts.ParseSatsOnlyNumbers` | explorer/elements.go:14-28 | Text that is no JSON number is refused. |
| `Amounts.SpellingsAgree` | explorer/elements.go:14-28 | Plain and scientific spellings whose digits stand for one number parse alike. |
| `Amounts.EightDecimalsRoundTrip` | explorer/elements.go:12-28 | Every 64-bit satoshi count printed with eight decimals parses back to itself. |
| `Amounts.ExponentLimitBites` | explorer/elements.go:14-28 | Texts of exactly one coin with more than a million zeros are refused: the library's exponent limit is part of the condition. |
| `Amounts.MillionAndOneBites` | explorer/elements.go:14-28 | Such a text exists: the digits of 1000001 spell an exponent past the limit. |
| `Words.Roll` | explorer/assetid.go:48-57 | The simultaneous assignment of the eight working variables is one round of section 6.2.2 of FIPS 180-4. |
| `Words.RotationsAreRotations` | explorer/assetid.go:30-30 | Rotation by two shifts is rotation, for every amount used. |
| `Words.ExpandedWordIsNext` | explorer/assetid.go:41-45 | The order in which the schedule terms are added does not matter. |
| `Words.BitsGoTo` | explorer/assetid.go:42-51 | Where the four word functions send the lowest and the highest bit. |
| `Words.MajorityOfThree` | explorer/assetid.go:52-52 | Maj has a one where two of the three words have. |
| `Words.OneRoundOneWord` | explorer/assetid.go:41-57 | One round and one schedule word in numbers, of a token of the network. |
| `Sha256.InitialValueIsStandard` | explorer/assetid.go:14-17 | The initial value is made of the square roots of the first eight primes, as section 5.3.3 of FIPS 180-4 says. |
| `Sha256.RoundConstantsAreStandard` | explorer/assetid.go:19-28 | The round constants are made of the cube roots of the first sixty-four primes, as section 4.2.2 of FIPS 180-4 says. |
| `Sha256.FillSchedule` | explorer/assetid.go:37-45 | The array holds the recursive message schedule of section 6.2.2. |
| `Sha256.RunRounds` | explorer/assetid.go:46-57 | The rolling variables are the working variables after sixty-four rounds. |
| `Sha256.PutState` | explorer/assetid.go:58-63 | The state words are written out one after the other, most significant byte first. |
| `Sha256.FastMerkleHash` | explorer/assetid.go:33-63 | The loops compute one compression of the 64-byte concatenation from the initial value, without padding. |
| `Compression.ScheduleStartsWithBlock` | explorer/assetid.go:38-40 | The first sixteen schedule words are the block, four bytes a word, the most significant first. |
| `Compression.DigestWordIs` | explorer/assetid.go:58-63 | Word i of the digest is initial word i plus working variable i. |
| `AssetId.ReverseHex` | explorer/assetid.go:72-85 | The bytes a displayed identifier stands for, or failure. |
| `AssetId.DisplayHex` | explorer/assetid.go:87-93 | The reversed lower-case text of 32 bytes. |
| `AssetId.DecodesExactlyHex` | explorer/assetid.go:74-77 | Exactly the even-length texts of hexadecimal digits decode (section 8 of RFC 4648). |
| `AssetId.ParseShow` | explorer/assetid.go:72-93 | Reading a displayed identifier gives its bytes back. |
| `AssetId.ShowParse` | explorer/assetid.go:72-93 | Exactly the 64-digit texts are identifiers, and displaying one again gives its lower case. |
| `AssetId.OutpointInjective` | explorer/assetid.go:101-103 | Distinct outpoints serialize to distinct 36-byte preimages. |
| `AssetId.AssetEntropy` | explorer/assetid.go:96-105 | The entropy text of an outpoint and a contract hash. |
| `AssetId.AssetIdFromEntropy` | explorer/assetid.go:108-115 | The asset identifier of an entropy text. |
| `AssetId.ReissuanceTokenFromEntropy` | explorer/assetid.go:118-130 | The token identifier of an entropy text, tagged by confidentiality. |
| `Identifiers.AssetTextIs` | explorer/assetid.go:108-115 | The text of an asset shows exactly the compression of the entropy and thirty-two zero bytes; an error exactly for texts that name no bytes. |
| `Identifiers.TokenTextIs` | explorer/assetid.go:118-130 | The text of a token shows exactly the compression of the entropy and a leaf whose first byte is 2 when blinded and 1 when explicit. |
| `Identifiers.EntropyTextIs` | explorer/assetid.go:96-105 | The text of an entropy shows exactly the compression of the double hash of transaction id and little-endian output number with the contract hash. |
| `Identifiers.ShowIdIs` | explorer/assetid.go:87-93 | The displayed text is the only one that shows the bytes from last to first in two lower-case digits each. |
| `Identifiers.ParseIdIs` | explorer/assetid.go:72-85 | A text is read as exactly the bytes its digits name, in either case. |
| `AssetId.ChainingIsComposing` | explorer/assetid.go:96-130 | Chaining entropy text into asset and token text is composing on raw bytes. |
| `AssetId.CaseDoesNotMatter` | explorer/assetid.go:108-130 | An entropy gives the same identifiers in whichever case it is written. |
| `AssetId.VerifiedMeansDerived` | explorer/store.go:405-413 | An issuance is marked verified exactly when one entropy determines both identifiers it shows, in their canonical spelling. |
| `Identifiers.VerifiedIs` | explorer/store.go:405-413 | An issuance is marked verified exactly when its texts show the compressions of its own entropy with the zero leaf and with the token leaf of its blinding. |

## What is assumed of chains

Whole-run results ask two things of the blocks (`History.Admissible`, `Runs.AdmissibleTrace`): every batch that commits continues
the heights of its moment, and every block that is rolled back spends no outpoint that an earlier block
of its chain spends. Batches that fail are arbitrary, and so are the amounts of issuances. The first is
what the process itself guarantees (`IndexerSafety.PlanIsSafe`); without the second the rollback leaves
other tables than before (`DoubleSpend.SecondSpendIsNotUndone`). Results on block rows ask the first alone
(`History.Orderly`). That outputs have distinct keys, that transactions are distinct and that block hashes
are distinct follows from the success of the inserts.

With negative amounts a batch can commit that has no committing cut, and a rollback can fail
(`Overflow.NegativeAmountsBreakBoth`); it then changes nothing. `History.Clean` rules them out where success
itself is claimed: `History.BatchSizeIndependence`, `History.IndexRefold`, `History.CleanRollbackCommits`
and `Convergence.OrdinarySetting`. `Exactness.SoundChain` asks that an outpoint is spent once and never
created after it was referred to; inputs whose prevout is absent (peg-ins) are allowed.

The hash assumption of `Runs` and `Convergence` is `NamesBlocks`. Their runs start from any process that
knows its policy asset or has yet to learn it; restarts configure that asset or none, and may fail to read
the saved one or the cursor.

Where the code and its comments differ the code is followed. `confidential_reissuance` is set when some
amount is blinded and some issuance is a reissuance, not necessarily the same one. The synchronized
counter of the network summary also counts failed nodes that carry the tip
(`Telemetry.FailedNodeCountsAsSynchronized`).

## Left out

- SQLite itself: write-ahead logging, pragmas, separate read and write handles, file sizes and backup. Transactions are atomic, and constraints are primary keys, UNIQUE hashes and amounts.
- The order in which SUM meets rows: an overflow is judged on the total, so a column whose partial sums overflow while its total fits is treated as fitting.
- Meta keys other than cursor and genesis hash, and the decimal text of the stored height: they are typed fields.
- A second policy asset: in whole-run results every node and every setting that names a policy asset names the same one. Safety and single-step results allow any.
- RPC transport, credentials, timeouts and failover sockets: only the validated answers are modelled.
- HTTP handlers, routing, JSON encoding and the offset ceiling of the API.
- Mempool replacement, beyond whether it succeeds; the asset registry; search; chain statistics; percent complete and production rate.
- Issuance pages: their ORDER BY does not break ties within a transaction, so the code does not determine them.
- Schema migration: there is one.
- Telemetry.Aggregate: does not model the peer, mempool and chain-size sums, the topology and the economics of the snapshot, because they are plain sums beside the vote; `Subsidy` holds the economics.
- The last-error fields and the initial-sync time of the status.
- Collision resistance of SHA-256, and the library's SHA-256, which is a parameter.
- Amount texts that the Go decoder never produces for a JSON number, such as fractions or hexadecimal: the parser of the model refuses them.
- The choice among assets with equal received amounts in an address summary: any order with non-increasing amounts is allowed.

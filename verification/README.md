# A model of the Blockbook index

Blockbook keeps an index of a blockchain in key-value columns and answers questions about addresses from it. This project models the parts of it that have to stay exact while blocks come and go and while readers, flushes and caches are at work, and proves what those parts promise. All files verify together (`dafny verify dfyconfig.toml`).

The modules follow the program:

- **UTXO lists** (`UtxoIndex`, `AddrUtxos`): the list of unspent outputs of an address, with tombstones and an index that is built lazily; searching through the index is the same as scanning.
- **The ledger** (`LedgerModel`, `LedgerInvariant`, `LedgerConnect`, `LedgerSteps`, `LedgerBlock`, `LedgerUndo`, `LedgerUndoSteps`, `LedgerUndoBlock`, `LedgerFinish`, `LedgerFrame`, `LedgerTheorems`, `LedgerRuns`, `LedgerNoReset`, `LedgerMarks`, `BlockWindow`, with sums in `Totals`): the columns of a Bitcoin-type chain with Syscoin assets as maps, a block as a sequence of transactions. The invariant says that every stored balance, counter, list and history row is what the `txAddresses` column implies. Connecting and disconnecting keep it, a disconnect undoes a connect, every run of connects and disconnects ends in the index of the chain that is left, and how deep the chain can be disconnected is known exactly.
- **The index against the blocks** (`ChainReading`, `BlockReading`, `ChainRecords`, `ChainIndex`, `ChainHistory`, `AssetRemoval`): what the blocks of a chain say by themselves, without any function of the index, and that in every reachable state the index says the same: records, history rows and asset rows in their order, amounts, counters, lists of outputs and block records; what a scan of the history delivers; and when a disconnect deletes the row of an asset.
- **The index as it is kept** (`Indexer`, `Overlay`, `Reversal`, `RangeDisconnect`): the same operations with caches that are filled on demand and written in batches, proved equal to the ledger functions, and the disconnect of a range of blocks.
- **Bulk import** (`BulkStrip`, `BulkConnect`, `BulkSession`): caches over many blocks with arbitrary partial flushes; the database is declared open only when it alone is what connecting block by block gives.
- **Storage formats** (`Vlq`, `BigintCodec`, `TxCodec`, `BalanceCodec`, `StoredRecords`, `Keys`, `AddressScan`): transaction records in four modes, balances with their assets and outputs, both for any reachable index, readers that skip, amounts packed word by word, ordered keys and the history scan.
- **Contract metadata** (`ErcProtocols`, `ContractCache`, `CacheHistory`, `ContractRace`, `ContractHistory`, `ContractCalls`, `ContractRows`, `Healing`, `MixedHealing`): protocol marks found by height, the cache of contract infos stated on the history of its calls and under any interleaving of readers and writers, and healing of missed blocks in any order, mixed with synced ones.
- **Around the index** (`Mempool`, `Paging`, `BalanceHistory`, `FiatTickers`, `XpubCache`, `Amounts`).

A block is taken to be valid: its txids are new, an output with a descriptor that one of its inputs names is unspent if the index knows it, no output is named twice, and its height is above those connected before. Inputs may name outputs nobody knows; they stay blank. A column is a map and a write batch is one atomic update. The variable-length integer library is not part of the repository; `Vlq` is a base-128 code of the same kind.

Where the code does not do what one would expect of it, the model follows the code:

- The spent mark of an output without descriptor is set by a connect (db/rocksdb.go:1167) and not cleared by the disconnect, which passes over such inputs (db/rocksdb.go:2148). `LedgerRuns.DisconnectUndoesConnect` says exactly when the column is restored to the letter; `LedgerMarks.MarkStaysHere` is a block for which it is not.
- A range of blocks from height 0 is disconnected, but the loop then counts down below 0 and looks up a record out of range, and one up to the highest 32-bit height never is (db/rocksdb.go:2402-2417). `RangeDisconnect.DisconnectBlockRange` says exactly when.
- A disconnect that takes back the last transaction of an asset deletes the row of the asset only when that transaction is first met by an output (db/rocksdb_syscointype.go:154-161, 180-183); otherwise a row without transactions stays. `AssetRemoval.DropRemovesAsset` says exactly when.
- A disconnect of protocol marks up to the highest 32-bit height finds nothing, because the end of its range wraps to 0 (db/rocksdb_protocols.go:150). `ErcProtocols.ExactUnlessHighest` says exactly when the disconnect leaves what should remain.
- Two adds of a transaction to the mempool that see different addresses can leave a place without entry (`Mempool.MirrorNeedsSameAddresses`); `Mempool.InsertKeepsMirror` has the exact condition.
- Balance changes within the first interval after time 0 are dropped when later ones follow (api/types.go:630-635); `BalanceHistory.NothingLostExactly` has the exact condition, `BalanceHistory.EarlyPointLost` an example.
- A search for tickers never goes back in time, so times that do not ascend are not looked up on their own (db/fiat.go:196-201); `FiatTickers.FindTickers` says what is found, `FiatTickers.AsLookupsIfAscending` that ascending times are exactly those for which it is a lookup for each.
- Page bounds saturate at 10^9 (api/worker.go:1880-1888); `Paging.PagingIsSlicesExactly` has the exact condition.
- A plain amount without integer digits is refused when no decimal counts (bchain/baseparser.go:74-84); `Amounts.PlainParses` has the exact condition.
- The shift of a scientific amount is kept in 64 bits (bchain/baseparser.go:141), so that exponents at the ends of their range wrap around: `Amounts.HugeExponentIsZero` and `Amounts.TinyExponentRefused` are inputs, `Amounts.ScientificExactly` has the exact condition.
- A number of more than 31 words loses its lowest words when packed (db/rocksdb.go:3252-3289); `BigintCodec.PackIsExact` and, for whole records, `TxCodec.RecordReadExactly` and `BalanceCodec.BalanceReadExactly` have the exact condition.
- An index of an address row is kept in 31 bits (db/rocksdb.go:1902); `AddressScan.IndexesKeptExactly`.
- A reader that writes a contract row back can bring back a row that was purged after it read it (db/rocksdb_contracts.go:131-138). `ContractRows.GoneExactly` says exactly when a row that is gone can come back, `ContractRows.PurgedRowReturns` is a run in which it does. An answer can turn stale in the same way while its counters stand: `ContractRows.RowStandsExactly` has the exact condition, `ContractRows.StaleAnswer` is a run, `ContractRows.RowsAreFresh` what holds without it.
- A destruction that finds no contract row is dropped by sync (db/rocksdb_contracts.go:203-205) and cannot be healed afterwards; `MixedHealing.DestructionLost` is such a run, `MixedHealing.MixedIsSync` has the exact condition.

## Model

| member | source | states |
|---|---|---|
| UtxoIndex.RunRefinesScan | db/rocksdb.go:912-1004 | over any sequence of add, restore and spend calls, the list with its index goes through the same slots as one that always scans, and stays valid: groups of a txid contiguous, live vouts ascending, a non-empty index complete and pointing at first slots |
| UtxoIndex.IndexedSearchIsLinear | db/rocksdb.go:977-1004 | in a valid list the search that starts at the index entry and breaks off at another txid finds the slot the linear search finds |
| UtxoIndex.AppendKeepsValid | db/rocksdb.go:913-936 | appending keeps the list valid, index included |
| UtxoIndex.RestoreKeepsValid | db/rocksdb.go:939-972 | putting an output back into its group keeps the list valid |
| UtxoIndex.AppendLive | db/rocksdb.go:913-936 | appending adds exactly that output to the live ones |
| UtxoIndex.RestoreLive | db/rocksdb.go:939-972 | restoring adds exactly that output to the live ones |
| UtxoIndex.MarkSpentLive | db/rocksdb.go:977-1004 | spending removes exactly that output from the live ones |
| UtxoIndex.LoadIsValid | db/rocksdb.go:1604-1664 | a list read from storage is valid |
| UtxoIndex.StripAppend | db/rocksdb.go:1670-1692 | writing and reading back a list commutes with appending to it |
| UtxoIndex.StripMarkSpent | db/rocksdb.go:1670-1692 | writing and reading back a list commutes with spending from it |
| UtxoIndex.SortSorts | db/rocksdb.go:2423-2443 | the list stored by a disconnect is in height order |
| UtxoIndex.SortIsPermutation | db/rocksdb.go:2423-2443 | and holds the same outputs |
| UtxoIndex.SortKeepsValid | db/rocksdb.go:2423-2443 | and keeps the outputs of a transaction together and in order |
| UtxoIndex.SortIsStable | db/rocksdb.go:2436-2438 | and keeps the order of the outputs of one height |
| AddrUtxos.AddrUtxos.AddUtxo | db/rocksdb.go:913-916 | the in-place append is the specified one and keeps validity |
| AddrUtxos.AddrUtxos.ManageUtxoMap | db/rocksdb.go:918-936 | the index after an append, built from all slots when the list gets long |
| AddrUtxos.AddrUtxos.AddUtxoInDisconnect | db/rocksdb.go:939-972 | the in-place insertion with its shift and index update is the specified one |
| AddrUtxos.AddrUtxos.MarkUtxoAsSpent | db/rocksdb.go:977-1004 | the two searches mark the specified slot, and tell whether there was one |
| LedgerSteps.AddOutputKeeps | db/rocksdb.go:1052-1115 | adding one output keeps balances, counters, lists and rows equal to what the records imply |
| LedgerSteps.SpendInputKeeps | db/rocksdb.go:1124-1222 | taking one output by an input keeps them too |
| LedgerBlock.ProcessKeepsInv | db/rocksdb.go:1029-1225 | a valid block folded into an index keeps the whole invariant and extends the record column by exactly its transactions, with the outputs it takes marked |
| LedgerUndoSteps.UndoInputKeeps | db/rocksdb.go:2141-2211 | taking back an input gives its output back to its address and leaves the counters of what was not met yet |
| LedgerUndoSteps.UndoOutputKeeps | db/rocksdb.go:2213-2257 | taking back an output removes it from its address |
| LedgerFinish.FinalKeepsInv | db/rocksdb.go:2364-2396 | the write batch at the end of a disconnect leaves an index that satisfies the invariant |
| LedgerFrame.ProcessFramed | db/rocksdb.go:1029-1225 | a block leaves rows of other heights alone and lists in height order |
| LedgerTheorems.ConnectKeepsGood | db/rocksdb.go:684-790 | connecting a valid block to a stored index gives a stored index with that block on top |
| LedgerTheorems.DisconnectKeepsGood | db/rocksdb.go:2272-2396 | disconnecting the block on top succeeds and gives a stored index without it |
| LedgerTheorems.ColumnRestoredExactly | db/rocksdb.go:2147-2166 | the record column is restored to the letter if and only if the block leaves no new mark on an output without descriptor |
| LedgerTheorems.PartlyStoredKeepsInv | db/rocksdb.go:1288-1302 | writing any of the balances out and reading them back keeps the invariant |
| LedgerRuns.InvDetermines | db/rocksdb.go:1029-1225 | the invariant determines the index: two indexes over the same records answer alike |
| LedgerRuns.DisconnectUndoesConnect | db/rocksdb.go:2272-2396 | disconnecting a just connected valid block is refused exactly when the block is empty, and else restores every column: counters, amounts, UTXO multisets in height order, history rows, asset counters and balances, block records; the records to the letter exactly when no new mark is left |
| LedgerRuns.RunIsReplay | db/rocksdb.go:2272-2396 | after every run of connects and disconnects the invariant holds and the index is that of connecting the surviving chain from scratch |
| LedgerNoReset.ConnectNeverResets | db/rocksdb.go:1202-1220 | when an input of a valid block takes a known output, its address and its asset holding still have what it takes, so the reset to zero is never reached |
| LedgerNoReset.DisconnectNeverResetsSent | db/rocksdb.go:2177-2180 | nor when an input is taken back |
| LedgerNoReset.DisconnectNeverResetsBalance | db/rocksdb.go:2230-2233 | nor when an output is taken back |
| LedgerMarks.MarkStays | db/rocksdb.go:2147-2166 | a block that takes an unspent output without descriptor leaves a mark its disconnect does not clear |
| LedgerMarks.MarkStaysHere | db/rocksdb.go:2147-2166 | two blocks connected from scratch for which this happens |
| BlockReading.CoinSays | db/rocksdb.go:1051-1072 | the coin stored for an output has its value, its asset and its descriptor, if that has 1 to 1024 bytes, and counts for exactly the address, holding and asset the output pays, with its amount |
| BlockReading.BlockOrder | db/rocksdb.go:1034-1249 | the history row of an address and the row of an asset in a connected block list first the transactions that pay it and then those that only take from it, each in block order |
| BlockReading.BlockAmounts | db/rocksdb.go:1034-1224 | the block adds to a balance what its outputs pay and moves what its inputs take to the amount sent, by the outputs the inputs name in the chain |
| ChainIndex.ConnectStates | db/rocksdb.go:1034-1224 | connecting a valid block to any good index stores value, asset and descriptor of every output of the block, and balance and amount sent of an address or holding grow together by exactly what the outputs of the block pay it |
| ChainRecords.ReplayRecords | db/rocksdb.go:1034-1190 | the records of a chain have height, version, outputs and inputs of its transactions: an output is spent exactly when an input from its block on names it, with that input as spender in the extended index; an input holds what it takes, or nothing if it names nothing known |
| ChainIndex.RunRows | db/rocksdb.go:1226-1249 | in every reachable state there is a history row exactly for the addresses and blocks of the surviving chain that touch each other, with the transactions in the order above and the places of the address in each, outputs first; an asset row lists transactions and versions in the same order |
| ChainIndex.RunSaysChain | db/rocksdb.go:1029-1249 | in every reachable state records, rows, balances, amounts sent, counters, lists of unspent outputs, presence of balances, hashes and block records are what the blocks of the surviving chain state |
| ChainHistory.ReachableHistory | db/rocksdb.go:608-671 | in every reachable state the history to be delivered for an address goes from the newest block in range to the oldest, in a block from the last to the first of those that only take from the address and then from the last to the first of those that pay it |
| AssetRemoval.RemovedExactly | db/rocksdb_syscointype.go:144-190 | disconnecting the top block of any good index deletes the row of an asset if and only if all its transactions are in the block, one of them carries it in outputs only, and it is not the bridge asset |
| AssetRemoval.DropRemovesAsset | db/rocksdb_syscointype.go:144-260 | the same in every reachable state, on the blocks: no block below touches the asset and the block has a transaction that pays in it and takes nothing of it |
| Indexer.Indexer.AddToAddressesMap | db/rocksdb.go:1230-1248 | the search over the transactions of a block for an address, and whether the transaction was there |
| Indexer.Indexer.AddToAssetsMap | db/rocksdb_syscointype.go:450-473 | the same for an asset |
| Indexer.Indexer.ConnectAllocation | db/rocksdb_syscointype.go:101-142 | the counters and amounts of an asset through the caches are those of the specification |
| Indexer.Indexer.ConnectOutput | db/rocksdb.go:1052-1115 | one output through the caches |
| Indexer.Indexer.ConnectInput | db/rocksdb.go:1124-1222 | one input through the caches |
| Indexer.Indexer.ProcessAddresses | db/rocksdb.go:1029-1225 | what caches over disk show after the nested loops is the specified fold of the block over what they showed before |
| Reversal.Reversal.DisconnectInput | db/rocksdb.go:2141-2211 | one input taken back with records and balances read on first use |
| Reversal.Reversal.DisconnectOutput | db/rocksdb.go:2213-2257 | one output taken back |
| Reversal.Reversal.DisconnectAllocation | db/rocksdb_syscointype.go:144-190 | the counters and amounts of an asset taken back, with the removal mark of the output side |
| Reversal.Reversal.Write | db/rocksdb.go:2364-2396 | the write batch built from what was read and met is the specified one |
| Reversal.DisconnectWith | db/rocksdb.go:2272-2396 | the loops over inputs, outputs and the write batch compute the specified disconnect with the given record of the block |
| RangeDisconnect.DisconnectKeepsRecords | db/rocksdb.go:2272-2396 | a disconnect is possible exactly with a non-empty record, and removes the record of its block and no other |
| RangeDisconnect.DisconnectBlockRange | db/rocksdb.go:2400-2421 | below the highest height a range goes as a whole or, when a record is missing and exactly then, is refused with nothing changed; records read before the first block goes are those of each block when its turn comes; the countdown runs below 0 exactly from lower height 0; a range up to the highest height wraps around and never goes |
| RangeDisconnect.RangeLeavesReplay | db/rocksdb.go:2400-2421 | on every reachable chain, disconnecting its topmost blocks is not refused and leaves the index of connecting the rest from scratch |
| BlockWindow.CleanupBlockTxs | db/rocksdb.go:1304-1324 | the loop sweeps the records from `keep` below the block down to the first gap, never that of block 0 |
| BlockWindow.RunKeepsWindow | db/rocksdb.go:1304-1360 | over every run of connects that sweep and disconnects, the records there are exactly those of the chain within `keep` blocks of the highest block ever connected, and that of block 0, and the index is that of connecting the surviving chain from scratch |
| BlockWindow.DropsWithinWindow | db/rocksdb.go:2400-2411 | the top block can be disconnected if and only if it is one of these; a refused disconnect changes nothing |
| BlockWindow.KeepNoneKeepsAll | db/rocksdb.go:1304-1324 | with nothing to keep nothing is swept |
| BulkStrip.ProcessAlike | db/bulkconnect.go:382-395 | folding a block into balances with tombstones gives what folding it into the stored ones gives |
| BulkConnect.ChooseTxs | db/bulkconnect.go:112-145 | a flush of records takes all, or all fully spent ones and at least a tenth of the limit; nothing is lost or doubled |
| BulkConnect.StoreTxAddresses | db/bulkconnect.go:112-150 | flushing records changes nothing of what caches over disk show |
| BulkConnect.StoreBalances | db/bulkconnect.go:170-190 | flushing balances changes only tombstones of what they show |
| BulkConnect.WriteBalances | db/rocksdb.go:1288-1302 | the balance column after a write: rows without transactions removed, others without tombstones |
| BulkConnect.StoreAssets | db/bulkconnect.go:211-230 | flushing asset counters changes nothing of what they show |
| BulkConnect.StoreTxAssets | db/bulkconnect.go:252-271 | nor does flushing asset rows, and a cached row is never on disk as well |
| BulkConnect.StoreBulkAddresses | db/bulkconnect.go:292-304 | nor does writing the queued history rows and heights |
| BulkSession.ConnectBlockInBulk | db/bulkconnect.go:382-490 | whatever is flushed, what caches over disk show goes on to be the blocks connected one by one; the block record is written only when asked for |
| BulkSession.InitBulk | db/bulkconnect.go:89-110 | the session starts with the database marked inconsistent |
| BulkSession.CloseBulk | db/bulkconnect.go:630-712 | the database is open again only once disk alone is that state |
| BulkSession.Import | db/bulkconnect.go:382-712 | importing any valid blocks in bulk leaves the database connecting them one by one leaves, but for the block records not asked for |
| BulkSession.ConnectBlockDirectly | db/rocksdb.go:684-790 | connecting outside of bulk mode is the specified connect |
| Vlq.UintRead | db/rocksdb.go:3133-3158 | a natural reads back from its code wherever it stands in a buffer |
| Vlq.IntRead | db/rocksdb.go:3125-3149 | and so does an integer |
| BigintCodec.PackBigint | db/rocksdb.go:3252-3289 | packing word by word stays within 249 bytes and writes the 31 most significant words of the number in the fewest bytes |
| BigintCodec.PackedRead | db/rocksdb.go:3295-3300 | every packed number reads back as its 31 most significant words, whatever follows it |
| BigintCodec.PackIsExact | db/rocksdb.go:3252-3300 | it reads back as itself if and only if it has at most 31 words |
| BigintCodec.LeastNumberCut | db/rocksdb.go:3252-3289 | 2^1984, the least number that does not, reads back as 2^1920 |
| BigintCodec.LenIsConsumed | db/rocksdb.go:3291-3293 | the skip length is what decoding consumes |
| TxCodec.InputRead | db/rocksdb.go:1536-1572 | a packed input decodes to the fields its mode keeps, with what packing leaves of its amounts |
| TxCodec.OutputRead | db/rocksdb.go:1574-1602 | the same for an output |
| TxCodec.RecordRead | db/rocksdb.go:1508-1534 | in each of the four modes unpacking a packed record gives back the fields the mode keeps, with what packing leaves of their amounts, and consumes all of it |
| TxCodec.RecordReadExactly | db/rocksdb.go:1508-1764 | these fields come back whole if and only if all amounts among them have at most 31 words |
| TxCodec.InputSkipped | db/rocksdb.go:1838-1868 | on every buffer that decodes, skipping an input stops where decoding it stops |
| TxCodec.OutputSkipped | db/rocksdb.go:1870-1892 | the same for an output |
| TxCodec.SuffixSkipped | db/rocksdb.go:3192-3214 | the same for the asset suffix |
| TxCodec.OutputAloneIsOutput | db/rocksdb.go:1444-1486 | on every buffer that decodes to a record, the short cut to one output gives what the record has there, nothing when it has none |
| TxCodec.PackTxAddresses | db/rocksdb.go:1508-1534 | the packing loops build the specified bytes |
| TxCodec.UnpackTxAddresses | db/rocksdb.go:1732-1764 | the unpacking loops decode as specified |
| TxCodec.GetTxAddressesOutput | db/rocksdb.go:1444-1486 | the skipping loops give the output decoding everything gives |
| BalanceCodec.BalanceRead | db/rocksdb.go:1604-1730 | whatever the order in which holdings are written and however outputs are to be read, a stored balance reads back with its counters, its assets and its live outputs in order, with what packing leaves of their amounts; the loop that reads outputs while enough bytes are left ends with the last byte |
| BalanceCodec.BalanceReadExactly | db/rocksdb.go:1604-1730 | with its index rebuilt it reads back as it was without its tombstones if and only if all amounts have at most 31 words |
| BalanceCodec.PackAddrBalance | db/rocksdb.go:1670-1730 | the packing loops build the specified bytes in some order of the holdings |
| BalanceCodec.UnpackAddrBalance | db/rocksdb.go:1604-1664 | on every buffer the reading loops decode as specified |
| StoredRecords.RunIsShaped | db/rocksdb.go:1162-1175 | in every index reached by connects and disconnects, spenders are named exactly by the spent outputs of the extended index, and previous outputs by its inputs only |
| StoredRecords.ShapedReadsBack | db/rocksdb.go:1508-1764 | a record of the ledger in the mode of its index reads back as itself if and only if its amounts have at most 31 words |
| StoredRecords.ReachableReadsBack | db/rocksdb.go:1278-1286 | so does what is stored for any transaction of any reachable index |
| StoredRecords.ReachableBalanceReadsBack | db/rocksdb.go:1604-1730 | what is stored for any address of any reachable index reads back as its balance, list and index included, if and only if its amounts have at most 31 words |
| Keys.UintOrder | db/rocksdb.go:3115-3123 | heights read back, and big-endian heights are ordered as numbers |
| AddressScan.KeyRead | db/rocksdb.go:3098-3113 | descriptor and height read back from a key |
| AddressScan.KeyOrder | db/rocksdb.go:3098-3104 | of two blocks of an address the newer one has the smaller key |
| AddressScan.KeyBetween | db/rocksdb.go:611-632 | a key of the right length lies between two keys of an address exactly when it is one of its own of a height in between |
| AddressScan.RowRead | db/rocksdb.go:1894-1911 | a packed row decodes to its transactions in reverse with the low 31 bits of their indexes |
| AddressScan.IndexesKeptExactly | db/rocksdb.go:1901-1923 | indexes come back as they were if and only if they fit into 31 bits |
| AddressScan.RowsFrom | db/rocksdb.go:608-671 | the rows in key order are the blocks of the address from the newest to the oldest |
| AddressScan.GetAddrDescTransactions | db/rocksdb.go:608-671 | over any stored keys, a scan that completes has delivered exactly the transactions in range with what is left of their indexes, newest block first and last transaction of a block first; one that fails at the limit has delivered those before the first foreign key beyond 1000; else the callback said so after what was delivered |
| AddressScan.OutcomeExactly | db/rocksdb.go:608-671 | the limit error occurs if and only if there are more than 1000 foreign keys and the callback goes on up to the one too many; the scan completes if and only if there are not and the callback always goes on |
| ErcProtocols.ValueRead | db/rocksdb_protocols.go:44-59 | a packed mark reads back |
| ErcProtocols.RangeIsHeights | db/rocksdb_protocols.go:146-160 | the keys between the ends of a range are exactly the rows by height of that protocol set within it |
| ErcProtocols.Protocols.Set | db/rocksdb_protocols.go:74-133 | a mark is written, with both its rows and one bump of the counter, exactly when the slot is free, the height positive and no reorg came in between |
| ErcProtocols.Protocols.Get | db/rocksdb_protocols.go:181-201 | the stored mark, or none |
| ErcProtocols.Protocols.DisconnectRange | db/rocksdb_protocols.go:146-177 | rows by contract and by height stay in one-to-one correspondence, and the marks of the range and no others go; with the highest height none go |
| ErcProtocols.ExactUnlessHighest | db/rocksdb_protocols.go:150 | a disconnect leaves what should remain if and only if the range stops below the highest height or holds no mark |
| ErcProtocols.HighestHeightStays | db/rocksdb_protocols.go:150 | a mark at the highest height survives the disconnect of that height |
| ContractCache.InsertOk | db/contract_info_cache.go:69-94 | an insertion evicts one entry, the last of the order, exactly when the cache is full and does not have the key |
| ContractCache.LookupOk | db/contract_info_cache.go:46-64 | a hit needs both counters to match and gives the value stored; a miss removes at most the stale entry of its own key, and nothing else changes |
| ContractCache.ContractInfoLru.Get | db/contract_info_cache.go:46-64 | list and map change together as specified |
| ContractCache.ContractInfoLru.Add | db/contract_info_cache.go:69-94 | list and map change together as specified |
| ContractCache.ContractInfoLru.Delete | db/contract_info_cache.go:108-118 | list and map change together as specified |
| CacheHistory.OrderIsByUse | db/contract_info_cache.go:46-94 | in every run of gets, adds and deletes the order lists the keys by the last call that added or found them, latest first |
| CacheHistory.CallOutcome | db/contract_info_cache.go:46-118 | in every run each call leaves exactly the entries it should: an add to a full cache takes out the key that was not added or found for longest, a get at most the stale entry of its own key |
| CacheHistory.EntriesAreLastAdded | db/contract_info_cache.go:69-80 | in every run a cached entry is that of the last add of its key |
| ContractRace.ActKeepsSafe | db/rocksdb_contracts.go:106-149 | every atomic step of a reader, a protocol write, a purge or a disconnect keeps what cached and running reads may rely on |
| ContractRace.AnswersAreFresh | db/rocksdb_contracts.go:106-149 | in every interleaving an answer given under counters that include a write, purge or disconnect was read after it was committed; while the counters stand and no writer is between commit and bump it shows the stored vault |
| ContractHistory.AnswersShowReads | db/rocksdb_contracts.go:106-149 | in every interleaving an answer shows a row as a reader of the contract took it over: with the standard stored when it was read if that was known, and else with that of the reader's own context; without a cache hit that reader is the caller |
| ContractHistory.RowsChangeOnlyBy | db/rocksdb_contracts.go:131-138 | in every interleaving a stored row changes only by a purge, which removes it, by a rollback, to what is rolled back to, or by a reader that read it while its standard was unknown, to what it read with its context's standard |
| ContractHistory.VaultsChangeOnlyBy | db/rocksdb_protocols.go:74-135 | in every interleaving a vault is written only where there is none, from an observation of the current generation and of the block still stored, and removed by a disconnect only |
| ContractCalls.SoloIsRun | db/rocksdb_contracts.go:106-149 | the steps of one call on its own are a run |
| ContractCalls.GetAlone | db/rocksdb_contracts.go:106-149 | a read on its own gives the cached info under the current counters, or the stored row with its vault; an unknown standard is taken from the context and stored, and what was read is cached |
| ContractCalls.SetAlone | db/rocksdb_protocols.go:74-135 | a protocol write on its own writes the vault exactly when there is none and nothing changed since it was observed, and is then counted |
| ContractCalls.PurgeAlone | db/rocksdb_contracts.go:408-443 | a purge on its own removes a stored row from column and cache and is then counted |
| ContractCalls.DisconnectAlone | db/rocksdb_ethereumtype.go:1579-1630 | a disconnect on its own removes the vaults of its keys, leaves the rows it rolls back to and counts the reorg |
| ContractRows.ActKeepsRow | db/rocksdb_contracts.go:106-149 | a step that does not remove or roll back the row of a contract while a reader is midway with it keeps what cached and running reads may rely on for that row, whatever happens to other rows |
| ContractRows.RowsAreFresh | db/rocksdb_contracts.go:106-149 | in every run of such steps an answer for that contract shows the stored row, but for its token standard, or that there is none, while its counters stand and no writer is between commit and bump |
| ContractRows.GoneStaysGone | db/rocksdb_contracts.go:408-443 | in every run without a rollback of a contract, its row stays gone when it is gone and no reader is midway with it |
| ContractRows.GoneExactly | db/rocksdb_contracts.go:131-138 | a row that is gone, with no rollback of it under way, stays gone in all runs without a rollback of it if and only if no reader is between reading it and writing it back |
| ContractRows.RowStandsExactly | db/rocksdb_contracts.go:106-149 | with no writer between commit and bump, the row of a contract, but for its token standard, stands in all runs for as long as the counters do, if and only if every reader that is midway with it holds what is stored |
| ContractRows.MidwayBringsBack | db/rocksdb_contracts.go:131-138 | a row purged or rolled back while a reader is between reading it and writing it back is, after the reader writes, what the reader had read |
| ContractRows.PurgedRowReturns | db/rocksdb_contracts.go:131-138 | a run from the start in which that happens after the purge has finished |
| ContractRows.StaleAnswer | db/rocksdb_contracts.go:131-138 | a run from the start in which an answer shows a row as it was rolled back, and a midway reader then writes the old row while the counters of the answer stand |
| Healing.HealedInOneGo | db/rocksdb_contracts.go:223-249 | the guarded records of a block amount to one closed form |
| Healing.HealingIsConfluent | db/rocksdb_contracts.go:223-320 | healing blocks in any order, even repeatedly, gives the life that overwriting the stub in block order gives |
| Healing.HealingAgain | db/rocksdb_contracts.go:223-320 | healing a block again changes nothing |
| Healing.HealingKeepsSane | db/rocksdb_contracts.go:228-249 | no contract is destructed before it was created |
| Healing.RecordsAreEvents | db/rocksdb_contracts.go:294-309 | the records of a contract in a block act as its events in trace order |
| Healing.StoreHealed | db/rocksdb_contracts.go:263-344 | the loop writes, for each address, its records applied in order to the life of the stored row or the stub, and only if one applied; what else the row holds stays |
| MixedHealing.RowIsOutcome | db/rocksdb_contracts.go:190-249 | however synced blocks and healed ones mix, the row is the outcome of all of them but the synced destructions that found no row |
| MixedHealing.RowIsOpened | db/rocksdb_contracts.go:196-213 | there is a row if and only if some step with events creates a contract or heals |
| MixedHealing.CountedIsNoted | db/rocksdb_contracts.go:196-249 | a block with events counts for the row if and only if one of its steps is such a step or comes after one |
| MixedHealing.MixedIsSync | db/rocksdb_contracts.go:190-249 | the row is what syncing the whole chain leaves if and only if the last block with events has a step that creates, heals or comes after one with events that does; where no contract was created, if and only if no block with events was healed |
| MixedHealing.DestructionLost | db/rocksdb_contracts.go:196-213 | a destruction synced while the creation before it is missed is lost: healing the creation leaves the contract alive |
| Mempool.InsertKeepsMirror | bchain/mempool_ethereum_type.go:206-217 | inserting keeps the mirror if and only if it loses no place of an entry of the same transaction |
| Mempool.RunKeepsMirror | bchain/mempool_ethereum_type.go:182-236 | however checks, inserts, refreshes and removals of concurrent calls interleave, (txid, n) is under an address exactly when the entry of txid lists it, and no list is empty |
| Mempool.ListsInOrder | bchain/mempool_ethereum_type.go:206-217 | in every interleaving the list of an address holds the places of the transactions that were put in and not taken out since, in the order they were put in |
| Mempool.EntryIsLast | bchain/mempool_ethereum_type.go:199-236 | in every interleaving an entry is the one put in last, with the time of the last refresh since |
| Mempool.PresentStays | bchain/mempool_ethereum_type.go:199-219 | with no add under way an entry is not put in again: until it is removed it changes by refreshes only |
| Mempool.MirrorNeedsSameAddresses | bchain/mempool_ethereum_type.go:199-219 | without addresses that depend on the txid alone this fails |
| Mempool.BaseMempool.InsertEntry | bchain/mempool_ethereum_type.go:211-216 | the loop appends every place of the entry, over an entry of the same transaction as well, and the mirror is kept exactly when none of that entry's places is lost |
| Mempool.BaseMempool.RemoveEntry | bchain/basemempool.go:77-103 | a removal takes the transaction out of every list it is in, with the compaction in place, and keeps the mirror |
| Mempool.BaseMempool.GetAddrDescTransactions | bchain/basemempool.go:50-61 | the places of an address in reverse order |
| Mempool.BaseMempool.RemoveSenderTransactionsUpToNonce | bchain/mempool_ethereum_type.go:105-127 | exactly the sender's entries up to the nonce go, each reported once |
| Mempool.BaseMempool.RemoveMissing | bchain/mempool_ethereum_type.go:182-194 | exactly the entries go that the backend no longer has and that are older than its snapshot |
| Mempool.BaseMempool.RemoveNotListed | bchain/mempool_bitcoin_type.go:558-564 | exactly the entries go that the backend does not list |
| Mempool.CreateTxEntry | bchain/mempool_ethereum_type.go:50-103 | an entry lists a place if and only if its address is not empty and it is that of an output, of input address i as -i-1, of the sender of transfer i as -i-2 or of its recipient as i+1; outputs come before inputs and these before transfers; sender and nonce are those of the first input, known only together, and the sender is listed |
| Paging.PagingIsSlicesExactly | api/worker.go:1868-1913 | a page is the slice of its items, the last page when the page asked for lies beyond, with its number and the number of pages, if and only if there are at most 10^9 items or the page ends by then |
| Paging.WindowsMakePage | api/worker.go:1915-1928 | the two clamped windows make up the page of the merged sequence |
| Paging.TruncationIsInvisible | api/worker.go:2519-2568 | paging over a truncated fetch gives the windows and the page of paging over everything, within what was fetched |
| Paging.PagesConcatenate | api/worker.go:1915-1928 | as far as their bounds do not saturate, the pages one after the other are the whole sequence |
| Paging.AccountPage | api/worker.go:2519-2587 | for any number of transactions the items by the bounds computed for all of them, which are those of the page exactly when no bound that matters saturates; its number, and the total, or -1 exactly when a filter hides it and a full page of confirmed transactions was found |
| BalanceHistory.ProcessHistory | api/worker.go:2865-2900 | the loops compute the change of one address; what goes back to own addresses is shown for the address of the first own input, and not at all without one |
| BalanceHistory.ChangesAddUp | api/worker.go:2865-2900 | over any own addresses the changes add up to own outputs, own inputs, and own outputs once if any input is own |
| BalanceHistory.Aggregate | api/types.go:627-654 | over points in order the groups are the intervals with counted points, each with its sums and its number of transactions |
| BalanceHistory.NothingLostExactly | api/types.go:629-642 | all points are counted if and only if they lie all in the first interval or all past it |
| BalanceHistory.EarlyPointLost | api/types.go:629-642 | two points of which the first is lost |
| BalanceHistory.SortAndAggregate | api/types.go:608-657 | the same whatever the order of the points |
| FiatTickers.Advance | db/fiat.go:203-225 | the walk with the last decoded row kept finds what decoding every row finds |
| FiatTickers.TickerFound | db/fiat.go:150-168 | a lookup is decided by the first row at or after the time that is not unsuitable: it fails if and only if that is broken, gives its ticker if and only if it is usable, and nothing if and only if there is none |
| FiatTickers.FindTickers | db/fiat.go:170-228 | for any times, one pass gives at each place what a lookup of the latest time so far gives, and fails if and only if one of these fails; for ascending times these are the lookups of the times themselves |
| FiatTickers.AsLookupsIfAscending | db/fiat.go:168-201 | the pass agrees with a lookup for each time over all stored tickers if and only if the times ascend |
| XpubCache.TrimIsShortest | api/xpub.go:221-264 | trimming removes the shortest prefix, oldest first, after which both caps hold |
| XpubCache.Cache.Delete | api/xpub.go:162-167 | the byte total stays the sum of the charges |
| XpubCache.Cache.Put | api/xpub.go:171-176 | the byte total stays the sum of the charges, also over an old entry |
| XpubCache.Cache.Touch | api/xpub.go:565-571 | a hit changes the age and not the charge |
| XpubCache.Cache.Trim | api/xpub.go:221-264 | one scan and one sort give what removing the oldest entry again and again gives, and the count of it |
| XpubCache.Cache.Evict | api/xpub.go:209-219 | expired entries go first, then the caps are enforced; the count is that of the entries removed, one more for nothing left and a negative cap |
| Amounts.PlainParses | bchain/baseparser.go:74-84 | every plain numeral parses to its value in the smallest unit, rounded toward zero; refused exactly without integer digits and decimals |
| Amounts.ScientificParses | bchain/baseparser.go:86-160 | every scientific numeral parses to the value, or the refusal, of its digits with the point moved by the shift as it is kept in 64 bits |
| Amounts.ScientificExactly | bchain/baseparser.go:141-154 | that is its value in the smallest unit, rounded toward zero, or a refusal beyond 1024 digits, if and only if the shift lies within 64 bits or all digits are zero |
| Amounts.HugeExponentIsZero | bchain/baseparser.go:141-154 | with 8 decimals, 1e9223372036854775807 and the seven exponents below give 0 instead of a refusal |
| Amounts.TinyExponentRefused | bchain/baseparser.go:141-146 | .1e-9223372036854775808 is refused instead of giving 0 |
| Amounts.NotationsAgree | bchain/baseparser.go:52-160 | a plain and a scientific numeral of the same number parse to the same amount whenever neither is refused, with the exact conditions of refusal |
| Amounts.RoundTrip | bchain/baseparser.go:163-187 | every amount printed with any number of decimals parses back to itself |
| Amounts.PrintsCanonical | bchain/baseparser.go:163-187 | what is printed has the sign of the amount, no superfluous zero in front, at most as many digits behind the point as there are decimals, the last of them not zero, and no point without digits behind it |

## Left out

- The Ethereum-type index: block processing, address-contracts cache and the sync worker.
- The memo, virtual size and block filter of a transaction or block in the ledger; `TxCodec` has memo and size.
- `cfTransactions`, the cache of raw transactions.
- LedgerTheorems.ConnectKeepsGood: without the block filter, and without the sweep of old block records, which `BlockWindow` adds.
- 32-bit wrap-around of transaction counters in the ledger: counters and amounts are integers.
- Inputs of transactions the index does not know: the parser hook for them is the default one, which gives no descriptor.
- Asset metadata and its fetching: an asset row is its transaction counter and the removal mark.
- RangeDisconnect.DisconnectBlockRange: for a lower height more than one above the higher one the code asks for a list of up to 2^32 records before its loops do nothing; whether there is memory for it is not modelled, nor the list of block times.
- Errors of the database itself: reads and writes succeed.
- Goroutines of a bulk flush: they touch different maps and are taken one after the other.
- BulkSession.ConnectBlockInBulk: the sweep of old block records that goes with writing one, which `BlockWindow` has for single blocks.
- Iteration order of maps is arbitrary wherever the code iterates over one.
- Reversal.Reversal.DisconnectInput: an input whose place is missing from the block record, where the code would panic, is passed over.
- AddressScan.GetAddrDescTransactions: stored rows are those the packer writes.
- StoredRecords.ReachableReadsBack: sizes, heights and indexes within 32 bits and txids of one length, as the fields of the code have them; the two modes with assets, as the others keep no version; size and memo, which the ledger does not have.
- StoredRecords.ReachableBalanceReadsBack: counters, heights and indexes within 32 bits and txids of one length, as the fields of the code have them.
- ContractRace.AnswersAreFresh: `storeContractInfo`, whose cache timing the counters do not cover; the contract row is the subject of `ContractRows`.
- ContractRows.RowsAreFresh: the token standard, which two readers may set at the same time; `ContractHistory` has where it comes from.
- The worker pool of `dispatchResyncPayloads` and the outpoint cache of a resync.
- Paging.AccountPage: filters on confirmed history, and products of page and page size beyond 64 bits.
- BalanceHistory.SortAndAggregate: points without txid or of more than one transaction, which the caller does not make; reordering of the caller's slice.
- FiatTickers.FindTickers: times are numbers; their text form of four digits for the year is ordered alike for the years 0 to 9999.
- XpubCache.Cache.Put: the size estimate is given, not computed.
- Amounts.PlainParses: white space around a numeral, and text that is no numeral.
- Repair, migrations, metrics, logging, the HTTP and websocket servers.

# moonworm contract watcher and moonstream block resolver, in Dafny

This project models two parts of moonworm, a tool that watches one smart
contract on Polygon and writes a "moonworm" label for each of its function
calls and events into a labels table:

- **The moonstream block resolver** (`MoonstreamEthereumStateProvider`).
  It answers block and transaction queries in three steps: first an
  in-memory block cache, then a batched lookup in the moonstream store,
  then the RPC node. One store lookup fetches the 100 block rows numbered
  from `n` upwards, together with their transactions, and caches every
  block of that batch that has transactions. The cache is emptied before
  a write once it holds more than 500 entries. The model is a class with
  a `dbSession` field and a `blocksCache` field, and its methods update
  the cache in place. Each method is proved against functions of the old
  cache and the store (`Prefetch`, `AfterPrefetch`, `Lookup`). Lemmas
  then state what those functions promise:
  - a cache hit changes nothing;
  - the block is cached afterwards;
  - a `GetBlock` lookup that starts with at most 501 cache entries ends
    with at most 501; the store lookup alone may reach 600;
    a store batch that pushes the cache past 500 is discarded again,
    keeping only the block asked for;
  - exactly when a store lookup yields nothing;
  - what the lookup caches, with each block's transactions in
    transaction-index order;
  - what the recipient filter keeps;
  - what the newest block number is.
- **The contract watcher** (`cu_watch.py`):
  - **Label writers.** The call-label writer and the event-label writer
    each delete the existing "moonworm" rows of the batch's transactions
    and then add one row per call or per event. The labels table is a
    `seq` of rows held by a session object. The writers are loops over
    `Delete` and `Add`, proved to leave exactly `AfterCallLabels` and
    `AfterEventLabels`. Lemmas about those functions state which rows go,
    which are added and which stay, and that replaying a batch changes
    nothing.
  - **Resume cursor.** The cursor read back from the labels table is the
    largest block number among the contract's "moonworm" rows.
  - **Start selection.** Forcing a start without a start block is
    refused; otherwise the start block is chosen from the start block,
    the resume cursor and the chain head.
  - **Crawl loop.** The loop is a `Watcher` class holding the cursor and
    the sleep time. One `Cycle` computes the window's end block. If that
    end is below the cursor, the window is stalled: the sleep doubles and
    nothing else changes. Otherwise the sleep halves, the window's calls
    and events are persisted, and the cursor moves to `end + 1`. A ghost
    list of crawled windows is kept contiguous, so the windows never
    overlap and leave no gap.

Collaborators that are not modelled become parameters of the model:
- the RPC node's `getBlock` is a function field;
- the chain head, and the calls and events of each window, are the
  fields of an `Observation` per cycle.

## Model

| member | source | states |
|---|---|---|
| StateProvider.MoonstreamEthereumStateProvider.constructor | moonworm/crawler/moonstream_ethereum_state_provider.py:29-39 | a new resolver keeps the given session and starts with an empty cache |
| StateProvider.MoonstreamEthereumStateProvider.SetDbSession | moonworm/crawler/moonstream_ethereum_state_provider.py:41-42 | the session becomes the given one; the cache is kept |
| StateProvider.MoonstreamEthereumStateProvider.ClearDbSession | moonworm/crawler/moonstream_ethereum_state_provider.py:44-45 | the session is detached; the cache is kept |
| StateProvider.MoonstreamEthereumStateProvider.GetLastBlockNumber | moonworm/crawler/moonstream_ethereum_state_provider.py:50-61 | Ok is a block number present in the store and no store block is higher; EmptyStore exactly when the store has no block rows; NoSession exactly when no session is attached |
| StateProvider.MoonstreamEthereumStateProvider.GetBlockFromDb | moonworm/crawler/moonstream_ethereum_state_provider.py:83-130 | the cache afterwards is `AfterPrefetch` of the old cache, and the result is None exactly when `Prefetch` yields nothing, else the fetched entry of block `n` |
| StateProvider.MoonstreamEthereumStateProvider.CacheBlocks | moonworm/crawler/moonstream_ethereum_state_provider.py:121-128 | the cache becomes the old cache (emptied if over 500 entries) overwritten with one entry per partitioned block |
| StateProvider.MoonstreamEthereumStateProvider.InsertEntries | moonworm/crawler/moonstream_ethereum_state_provider.py:124-128 | the loop over the partition leaves the old cache overwritten with exactly the partition's entries |
| StateProvider.MoonstreamEthereumStateProvider.GetBlock | moonworm/crawler/moonstream_ethereum_state_provider.py:132-151 | the block returned and the cache afterwards are those of `Lookup`: cache, then store, then RPC |
| StateProvider.MoonstreamEthereumStateProvider.GetBlockTimestamp | moonworm/crawler/moonstream_ethereum_state_provider.py:153-158 | the timestamp of the block `Lookup` resolves, with the same cache update |
| StateProvider.MoonstreamEthereumStateProvider.GetTransactionsToAddress | moonworm/crawler/moonstream_ethereum_state_provider.py:160-169 | the resolved block's transactions filtered by recipient, with the same cache update |
| StateProvider.QueryBatch | moonworm/crawler/moonstream_ethereum_state_provider.py:89-116 | the two store queries yield the batch index and the per-block partition, and the partition's key order lists exactly its blocks |
| StateProvider.PartitionByBlock | moonworm/crawler/moonstream_ethereum_state_provider.py:111-116 | the append loop builds `GroupByBlock` of the query rows, with keys in order of first appearance |
| StateProvider.FetchedBatch | moonworm/crawler/moonstream_ethereum_state_provider.py:97-130 | when the batch holds block `n` with transactions, the lookup yields the batch's entries and the cache becomes the (cleared-if-full) old cache plus them |
| StateProvider.GroupByBlockStep | moonworm/crawler/moonstream_ethereum_state_provider.py:113-116 | one more row appends to its block's list, opening the list and the key when the block is new |
| StateProvider.RepeatedTimestamp | moonworm/crawler/moonstream_ethereum_state_provider.py:153-158 | two timestamp queries for the same block return the same value |
| ChainData.TransformToW3Tx | moonworm/crawler/moonstream_ethereum_state_provider.py:63-81 | the RPC-shaped transaction keeps the row's block number, recipient and transaction index |
| ChainData.TransformRoundTrip | moonworm/crawler/moonstream_ethereum_state_provider.py:63-81 | the conversion loses no field: renaming back gives the original row |
| ChainData.TransformAll | moonworm/crawler/moonstream_ethereum_state_provider.py:127 | one converted transaction per row, position by position |
| ChainData.TransformAllSorted | moonworm/crawler/moonstream_ethereum_state_provider.py:107-127 | converting keeps the transaction-index order |
| ChainData.AfterFetch | moonworm/crawler/moonstream_ethereum_state_provider.py:121-128 | defined as: the cache unchanged when the store lookup yields nothing, else the cache (emptied if over 500 entries) overwritten with the fetched entries |
| ChainData.AfterPrefetch | moonworm/crawler/moonstream_ethereum_state_provider.py:83-130 | defined as: `AfterFetch` of the store lookup of block `n` |
| ChainData.ResolveMiss | moonworm/crawler/moonstream_ethereum_state_provider.py:139-150 | defined as: the store's entry for `n` if the lookup yields one, else the RPC node's block; the cache after the store lookup is emptied if over 500 entries and then maps `n` to that block |
| ChainData.Lookup | moonworm/crawler/moonstream_ethereum_state_provider.py:132-151 | defined as: on a hit the cached block and the cache unchanged, on a miss `ResolveMiss` of the store lookup with a batch of 100 |
| ChainData.BlocksFrom | moonworm/crawler/moonstream_ethereum_state_provider.py:89-91 | exactly the store's block rows numbered at least `n` |
| ChainData.BatchQuery | moonworm/crawler/moonstream_ethereum_state_provider.py:89-94 | at most `limit` rows, each a store row numbered at least `n` |
| ChainData.IndexByNumber | moonworm/crawler/moonstream_ethereum_state_provider.py:95 | the index's keys are the rows' block numbers and each maps to a row with that number |
| ChainData.TxsInBlocks | moonworm/crawler/moonstream_ethereum_state_provider.py:100-106 | exactly the transaction rows whose block is in the batch |
| ChainData.TxQuery | moonworm/crawler/moonstream_ethereum_state_provider.py:100-109 | the ordered query holds exactly the transaction rows of the batch's blocks |
| ChainData.OfBlock | moonworm/crawler/moonstream_ethereum_state_provider.py:113-116 | exactly the rows of block `b` |
| ChainData.BlockOrder | moonworm/crawler/moonstream_ethereum_state_provider.py:124 | the partition's key order holds exactly the blocks the rows mention |
| ChainData.GroupByBlock | moonworm/crawler/moonstream_ethereum_state_provider.py:111-116 | the partition's keys are exactly the blocks the rows mention |
| ChainData.GroupByBlockLists | moonworm/crawler/moonstream_ethereum_state_provider.py:111-116 | each block's list is that block's rows in query order |
| ChainData.Entries | moonworm/crawler/moonstream_ethereum_state_provider.py:124-128 | one cache entry per block that has transactions |
| ChainData.BatchIndex | moonworm/crawler/moonstream_ethereum_state_provider.py:89-95 | a batch holds at most `limit` blocks |
| ChainData.BatchGroups | moonworm/crawler/moonstream_ethereum_state_provider.py:100-116 | every partitioned block is a block of the batch |
| ChainData.Prefetch | moonworm/crawler/moonstream_ethereum_state_provider.py:83-119 | a successful lookup always includes block `n` and at most `limit` entries |
| ChainData.FromBatch | moonworm/crawler/moonstream_ethereum_state_provider.py:97-119 | a successful batch includes block `n` and no more entries than batch rows |
| ChainData.ClearIfFull | moonworm/crawler/moonstream_ethereum_state_provider.py:121-122 | the cache either stays as it is (when it holds at most 500 entries) or becomes empty |
| ChainData.TransactionsTo | moonworm/crawler/moonstream_ethereum_state_provider.py:168-169 | every transaction kept is one of the block's and is sent to `address` |
| ChainData.MaxBlockNumber | moonworm/crawler/moonstream_ethereum_state_provider.py:51-56 | the result is a block number of the rows and no row is higher |
| ChainData.LastBlockNumber | moonworm/crawler/moonstream_ethereum_state_provider.py:50-61 | NoSession exactly without a session, EmptyStore exactly with no block rows, otherwise the highest block number |
| ResolverLaws.RowNumbersMembers | moonworm/crawler/moonstream_ethereum_state_provider.py:95 | a number is a key of the batch exactly when some batch row has it |
| ResolverLaws.TxNumbersMembers | moonworm/crawler/moonstream_ethereum_state_provider.py:113-116 | a block is a partition key exactly when some row belongs to it |
| ResolverLaws.BatchContains | moonworm/crawler/moonstream_ethereum_state_provider.py:89-98 | block `n` is in its own batch exactly when the batch size is positive and the store has the block |
| ResolverLaws.PrefetchNoneCases | moonworm/crawler/moonstream_ethereum_state_provider.py:86-119 | the store lookup yields nothing exactly when there is no session, or the store lacks block `n`, or block `n` has no transactions |
| ResolverLaws.PrefetchCachedBlocks | moonworm/crawler/moonstream_ethereum_state_provider.py:118-128 | the lookup caches exactly the batch's blocks that have transactions |
| ResolverLaws.OfBlockSorted | moonworm/crawler/moonstream_ethereum_state_provider.py:107-116 | selecting one block's rows keeps them in transaction-index order |
| ResolverLaws.OfBlockCount | moonworm/crawler/moonstream_ethereum_state_provider.py:113-116 | a block's rows occur as often as in the query, other rows not at all |
| ResolverLaws.OfBlockPermutation | moonworm/crawler/moonstream_ethereum_state_provider.py:107-116 | reordering the query does not change which rows a block gets |
| ResolverLaws.OfBlockInBlocks | moonworm/crawler/moonstream_ethereum_state_provider.py:100-106 | restricting to the batch's blocks does not change the rows of a batch block |
| ResolverLaws.CachedRowsOrdered | moonworm/crawler/moonstream_ethereum_state_provider.py:100-128 | a cached block's rows are in transaction-index order and are a permutation of the store's rows for that block |
| ResolverLaws.PrefetchEntry | moonworm/crawler/moonstream_ethereum_state_provider.py:124-128 | a cached entry carries its block row's timestamp and exactly that block's transactions, in order |
| ResolverLaws.FetchSize | moonworm/crawler/moonstream_ethereum_state_provider.py:121-128 | a lookup with no result leaves the cache; one with results leaves at most 500 + batch entries |
| ResolverLaws.PrefetchSize | moonworm/crawler/moonstream_ethereum_state_provider.py:118-128 | the same bounds, for the lookup of block `n` |
| ResolverLaws.LookupHit | moonworm/crawler/moonstream_ethereum_state_provider.py:135-137 | a cache hit returns the cached block and leaves the cache unchanged |
| ResolverLaws.LookupCaches | moonworm/crawler/moonstream_ethereum_state_provider.py:135-151 | after a lookup the returned block is cached under its number |
| ResolverLaws.LookupSource | moonworm/crawler/moonstream_ethereum_state_provider.py:139-142 | on a miss, the block is the store's entry when the store lookup yields one and the RPC node's answer otherwise; without a session, the block row or its transactions, it is the RPC node's |
| ResolverLaws.ResolveMissSize | moonworm/crawler/moonstream_ethereum_state_provider.py:146-150 | a miss on a cache of at most 501 entries leaves at most 501 |
| ResolverLaws.LookupSizeBound | moonworm/crawler/moonstream_ethereum_state_provider.py:121-150 | a lookup on a cache of at most 501 entries leaves at most 501 |
| ResolverLaws.ResolveMissOverflow | moonworm/crawler/moonstream_ethereum_state_provider.py:121-150 | a miss on a cache over capacity drops every old entry |
| ResolverLaws.LookupOverflow | moonworm/crawler/moonstream_ethereum_state_provider.py:121-150 | a lookup miss on a cache over capacity leaves only the blocks it fetched |
| ResolverLaws.BatchQueryLowest | moonworm/crawler/moonstream_ethereum_state_provider.py:89-94 | the batch is in ascending block order, holds min(limit, matching rows) rows, and no matching row left out of it is numbered below a row in it |
| ResolverLaws.LookupDiscardsBatch | moonworm/crawler/moonstream_ethereum_state_provider.py:139-150 | a miss whose store batch pushes a cache of at most 500 entries past 500 returns the store's block but leaves only that block in the cache |
| ResolverLaws.StoreTimestamp | moonworm/crawler/moonstream_ethereum_state_provider.py:153-158 | when the store has block `n` with transactions, a miss returns the timestamp of one of the store's rows for block `n` |
| ResolverLaws.TransactionsToSubsequence | moonworm/crawler/moonstream_ethereum_state_provider.py:168-169 | the filtered transactions keep the block's order |
| ResolverLaws.TransactionsToCount | moonworm/crawler/moonstream_ethereum_state_provider.py:168-169 | a transaction to `address` is kept as often as it occurs; any other is dropped |
| Labels.CallLabel | moonworm/cu_watch.py:95-109 | a call's row is tagged "moonworm", has no log index, and carries the call's contract address, hash, block and timestamp |
| Labels.EventLabel | moonworm/cu_watch.py:160-172 | an event's row is tagged "moonworm", carries the event's log index, address, hash, block and timestamp |
| Labels.CallRows | moonworm/cu_watch.py:94-110 | one row per call, in call order |
| Labels.EventRows | moonworm/cu_watch.py:159-173 | one row per event, in event order |
| Labels.Existing | moonworm/cu_watch.py:65-76 | the query returns only table rows that it selects |
| Labels.Survivors | moonworm/cu_watch.py:77-79 | the rows left in place are table rows the query does not select |
| Labels.InitialCursor | moonworm/cu_watch.py:220-256 | refused exactly when forced without a start block; otherwise never below the start block, and never below the resume cursor unless forced |
| Labels.EndBlock | moonworm/cu_watch.py:263 | the window end is the smaller of head less confirmations and cursor + 5 |
| Labels.RemoveOne | moonworm/cu_watch.py:79 | defined as: the table without its last row equal to `row`, unchanged when there is none |
| Labels.RemoveEach | moonworm/cu_watch.py:78-79 | defined as: the table after deleting each given row in turn |
| Labels.AfterCallLabels | moonworm/cu_watch.py:65-110 | defined as: the rows the call query leaves, followed by one new row per call |
| Labels.AfterEventLabels | moonworm/cu_watch.py:128-173 | defined as: the rows the event query leaves, followed by one new row per event |
| Labels.Persist | moonworm/cu_watch.py:271-303 | defined as: the call writer when the window has calls, then the event writer when it has events |
| Labels.LastCrawledBlock | moonworm/cu_watch.py:36-53 | defined as: the largest block number among the contract's "moonworm" rows, None without any |
| Labels.Contiguous | moonworm/cu_watch.py:263-311 | defined as: each window ends no earlier than it starts, starts right after the previous one ends, the first starts at the start block and the cursor follows the last |
| LabelLaws.ExistingCount | moonworm/cu_watch.py:65-76 | the query returns each selected row as often as the table holds it |
| LabelLaws.SurvivorsCount | moonworm/cu_watch.py:77-79 | every unselected row survives as often as the table holds it |
| LabelLaws.ExistingAndSurvivors | moonworm/cu_watch.py:65-79 | the table splits into the queried rows and the survivors |
| LabelLaws.SurvivorsAppend | moonworm/cu_watch.py:77-79 | deleting from a concatenation deletes from each part |
| LabelLaws.SurvivorsOfUntouched | moonworm/cu_watch.py:77-79 | a table with no selected row is left whole |
| LabelLaws.SurvivorsOfReplaced | moonworm/cu_watch.py:77-79 | a table of selected rows only is emptied |
| LabelLaws.RemoveOneCount | moonworm/cu_watch.py:79 | deleting a row removes one copy of it |
| LabelLaws.RemoveOneSurvivors | moonworm/cu_watch.py:78-79 | deleting a selected row does not touch the survivors |
| LabelLaws.DeleteStep | moonworm/cu_watch.py:78-79 | one delete of the loop extends the deleted rows by one and keeps the survivors |
| LabelLaws.DeletedAll | moonworm/cu_watch.py:78-79 | once all queried rows are deleted the table is exactly the survivors, in order |
| LabelLaws.RemoveEachQueried | moonworm/cu_watch.py:78-79 | deleting queried rows one by one takes out exactly those rows and leaves the survivors |
| LabelLaws.DeleteQueried | moonworm/cu_watch.py:65-79 | the delete loop over the query's result leaves exactly the survivors |
| LabelLaws.CallWriterRows | moonworm/cu_watch.py:65-110 | after the call writer, a selected row is gone, an unselected row keeps its count, and each call adds its row once |
| LabelLaws.CallWriterLeavesNoStaleRow | moonworm/cu_watch.py:65-110 | every selected-kind row left after the call writer is one the batch itself wrote |
| LabelLaws.CallWriterKeepsEventRows | moonworm/cu_watch.py:69 | the call writer never touches a row with a log index |
| LabelLaws.CallWriterIdempotent | moonworm/cu_watch.py:65-110 | replaying a batch of calls for their own contract changes nothing |
| LabelLaws.EventWriterRows | moonworm/cu_watch.py:128-173 | after the event writer, a selected row is gone, an unselected row keeps its count, and each event adds its row once |
| LabelLaws.EventWriterSelectsAnyLogIndex | moonworm/cu_watch.py:131-140 | the event writer deletes a matching row whatever its log index |
| LabelLaws.EventWriterKeepsCallRows | moonworm/cu_watch.py:137 | the event writer never touches a row without a log index |
| LabelLaws.EventWriterIdempotent | moonworm/cu_watch.py:128-173 | replaying a batch of events for their own contract changes nothing |
| LabelLaws.WritersOfEmptyBatch | moonworm/cu_watch.py:65-110 | an empty batch leaves the table as it is |
| LabelLaws.WrittenRowsOfOtherKind | moonworm/cu_watch.py:69 | neither writer deletes the rows the other writer just added |
| LabelLaws.PersistShape | moonworm/cu_watch.py:271-303 | a cycle's persist step leaves the rows surviving both writers, then the call rows, then the event rows |
| LabelLaws.FilterMiddle | moonworm/cu_watch.py:77-79 | deleting from kept + selected + unselected rows leaves kept + unselected |
| LabelLaws.RefilterPersisted | moonworm/cu_watch.py:271-303 | both writers' deletes on a persisted table leave only the rows that survived before |
| LabelLaws.BatchRowsReplaced | moonworm/cu_watch.py:65-76 | a batch's own rows are selected by its own writer's query |
| LabelLaws.PersistIdempotent | moonworm/cu_watch.py:271-303 | replaying a cycle's calls and events for their own contract changes nothing |
| LabelLaws.ContiguousStep | moonworm/cu_watch.py:311 | a progressing cycle extends the contiguous windows by the one it crawled |
| LabelLaws.ContiguousOrdered | moonworm/cu_watch.py:263-311 | contiguous windows lie between the start and the cursor, in order, and do not overlap |
| LabelLaws.ContiguousCovers | moonworm/cu_watch.py:263-311 | every block from the start up to the cursor lies in a crawled window |
| LabelLaws.LastCrawledBlockIsMax | moonworm/cu_watch.py:43-53 | None exactly when the table has no "moonworm" row for the contract; otherwise such a row's block number that no such row exceeds |
| LabelLaws.ResumeWithoutStartBlock | moonworm/cu_watch.py:239-246 | without a start block the crawl resumes at the cursor, or starts at head less twice the confirmations |
| LabelLaws.ResumeWithStartBlock | moonworm/cu_watch.py:247-256 | a start block is used as given when forced or with no labels, else raised to the cursor when it is not higher |
| LabelLaws.ResumeNotBeforeLabels | moonworm/cu_watch.py:239-256 | unforced, the start is accepted and not below any crawled row's block |
| CuWatch.LabelSession.constructor | moonworm/cu_watch.py:224 | a session over the given table |
| CuWatch.LabelSession.Delete | moonworm/cu_watch.py:79 | deleting takes one copy of the row out of the table |
| CuWatch.LabelSession.Add | moonworm/cu_watch.py:110 | adding appends the row |
| CuWatch.DeleteExisting | moonworm/cu_watch.py:65-79 | the delete loop leaves exactly the rows the existing-labels query does not select, in order |
| CuWatch.AddFunctionCallLabels | moonworm/cu_watch.py:65-110 | the table becomes `AfterCallLabels` of the old table |
| CuWatch.AddEventLabels | moonworm/cu_watch.py:128-173 | the table becomes `AfterEventLabels` of the old table |
| CuWatch.GetLastCrawledBlock | moonworm/cu_watch.py:36-53 | None exactly without a "moonworm" row for the contract; else the highest block number among them |
| CuWatch.MockState.constructor | moonworm/cu_watch.py:185-186 | the call buffer starts empty |
| CuWatch.MockState.GetLastCrawledBlock | moonworm/cu_watch.py:188-192 | the buffer reports block 0 |
| CuWatch.MockState.RegisterCall | moonworm/cu_watch.py:194-198 | a registered call is appended to the buffer |
| CuWatch.MockState.Flush | moonworm/cu_watch.py:200-204 | flushing empties the buffer |
| CuWatch.ConcatMembers | moonworm/cu_watch.py:280-300 | an event is collected exactly when some chunk holds it |
| CuWatch.Concat | moonworm/cu_watch.py:280-300 | defined as: the chunks' events, chunk by chunk |
| CuWatch.CollectEvents | moonworm/cu_watch.py:280-300 | the collected events are the chunks' events, chunk by chunk |
| CuWatch.Step | moonworm/cu_watch.py:263-311 | one cycle on values: the cursor moves by between 0 and 6 blocks; it stays exactly when the window ends before it, and then the table is unchanged and the sleep doubles; when it moves the sleep halves |
| CuWatch.Run | moonworm/cu_watch.py:260-311 | defined as: `Step` applied once per observation, in order |
| CuWatch.RunCursorBounds | moonworm/cu_watch.py:260-311 | over any run the cursor never moves back and moves at most six blocks per cycle |
| CuWatch.RunStalled | moonworm/cu_watch.py:263-266 | a run whose every window ends before the cursor leaves the table and the cursor unchanged |
| CuWatch.Watcher.constructor | moonworm/cu_watch.py:224-237 | a watcher with an empty call buffer, the given cursor and sleep time, and no crawled windows |
| CuWatch.Watcher.Crawl | moonworm/cu_watch.py:270 | the crawler registers the window's calls in order |
| CuWatch.Watcher.CrawlAndPersist | moonworm/cu_watch.py:270-303 | the window's calls are written and flushed, then its events; the table becomes `Persist` of the old table |
| CuWatch.Watcher.Cycle | moonworm/cu_watch.py:263-311 | progress exactly when the window end is not below the cursor; a stall doubles the sleep and changes nothing else; progress halves the sleep, persists the window, moves the cursor to end + 1 and keeps the windows contiguous; the new table, cursor and sleep time are `Step` of the old ones |
| CuWatch.WatchCuContract | moonworm/cu_watch.py:207-311 | refused exactly when forced without a start block, leaving the table; otherwise the crawl starts at `InitialCursor`, the crawled windows lie in order from it to the final cursor without overlap, and the final table, cursor and sleep time are `Run` of the observations from the starting table, cursor and sleep time |

## Left out

- `get_transaction_reciept` (moonworm/crawler/moonstream_ethereum_state_provider.py:47-48) forwards to the RPC node and has no logic of its own.
- The network, the SQLAlchemy session and the `MODELS` table lookup are not modelled. The store is a value holding the blocks and transactions tables as unordered sequences of rows. SQL `ORDER BY ... ASC` is modelled as a stable ascending sort.
- The RPC node's `getBlock` is a function field of the resolver. Asking twice for the same block therefore gives the same answer.
- Commit failures, the retry commit and the rollback (moonworm/cu_watch.py:81-92, 111-118, 146-157, 174-181) are not modelled; only the path where every commit succeeds is. A rolled-back delete followed by successful adds would leave duplicate rows, and the model does not capture that.
- RPC and store failures are not modelled: the RPC node is a total function, so a `getBlock` that raises cannot occur. In the source such a failure propagates out of the lookup and leaves the cache unchanged.
- `time.sleep` is not modelled. The sleep time is kept as a real that doubles or halves.
- The liveness probe query (moonworm/cu_watch.py:261) is not modelled.
- Logging and `print` are not modelled.
- JSON and HexBytes conversions are not modelled: arguments and hashes are opaque strings.
- The function-call crawler, `Web3StateProvider`, `_fetch_events_chunk` and `utfy_dict` are not part of this model. The calls the crawler decodes in a window, and the events fetched for each event ABI, are inputs of a cycle.
- Event timestamps are inputs too, while the watcher really asks the block resolver for them.
- The choice between the web3 and the moonstream resolver (moonworm/cu_watch.py:226-231) is not modelled. As written, that constructor call passes `session=` while the constructor's parameter is `db_session`; the model does not wire the resolver into the watcher at all.
- CuWatch.WatchCuContract: the source loops forever; the model runs one cycle per element of a finite list of observations.
- The order of rows in the tables is modelled as table order, with additions at the end. A database does not promise that order.
- setup.py is packaging and is not part of this model.

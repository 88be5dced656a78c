/**
 * The moonstream-backed block resolver: an object holding an optional
 * store session and a block cache that its lookups update in place.
 */
module StateProvider {
  import opened Wrappers
  import opened ChainData

  class MoonstreamEthereumStateProvider {
    /** The RPC node's `getBlock(n, full_transactions=True)`. */
    const rpc: int -> BlockEntry
    var dbSession: Option<Store>
    var blocksCache: map<int, BlockEntry>

    constructor (rpc: int -> BlockEntry, dbSession: Option<Store>)
      ensures this.rpc == rpc && this.dbSession == dbSession
      ensures blocksCache == map[]
    {
      this.rpc := rpc;
      this.dbSession := dbSession;
      blocksCache := map[];
    }

    /** Attaches a store session; the warm cache is kept. */
    method SetDbSession(session: Store)
      modifies this`dbSession
      ensures dbSession == Some(session)
    {
      dbSession := Some(session);
    }

    /** Detaches the store session; the warm cache is kept. */
    method ClearDbSession()
      modifies this`dbSession
      ensures dbSession == None
    {
      dbSession := None;
    }

    /** The newest block number in the store. */
    method GetLastBlockNumber() returns (r: Result<int, ResolverError>)
      ensures r.Ok? ==> dbSession.Some? && HasBlock(dbSession.value, r.value)
      ensures r.Ok? ==> forall b :: b in dbSession.value.blocks ==> b.blockNumber <= r.value
      ensures r == Err(EmptyStore) <==> dbSession.Some? && dbSession.value.blocks == []
      ensures r == Err(NoSession) <==> dbSession.None?
    {
      r := LastBlockNumber(dbSession);
    }

    /**
     * The store lookup: fetches the batch of block rows from `n` on and their
     * transactions, and caches every batch block that has transactions.
     */
    method GetBlockFromDb(n: int, batchLoadCount: nat) returns (r: Option<BlockEntry>)
      modifies this`blocksCache
      ensures blocksCache == AfterPrefetch(old(blocksCache), dbSession, n, batchLoadCount)
      ensures r == match Prefetch(dbSession, n, batchLoadCount)
        case None => None
        case Some(entries) => Some(entries[n])
    {
      if dbSession.None? {
        return None;
      }
      var blocks, blockTransactions, order := QueryBatch(dbSession.value, n, batchLoadCount);
      if n !in blocks || n !in blockTransactions {
        return None;
      }
      FetchedBatch(blocksCache, dbSession.value, n, batchLoadCount);
      CacheBlocks(blocks, blockTransactions, order);
      r := Some(blocksCache[n]);
    }

    /** Clears a cache over capacity, then caches one entry per partitioned block. */
    method CacheBlocks(blocks: map<int, BlockRow>, blockTransactions: map<int, seq<TxRow>>, order: seq<int>)
      requires blockTransactions.Keys <= blocks.Keys
      requires forall b :: b in order <==> b in blockTransactions
      modifies this`blocksCache
      ensures blocksCache == ClearIfFull(old(blocksCache)) + Entries(blocks, blockTransactions)
    {
      if |blocksCache| > CacheCapacity {
        blocksCache := map[];
      }
      InsertEntries(blocks, blockTransactions, order);
    }

    /**
     * The loop over the partition in its key order, writing each block's
     * entry; `order` lists exactly the partitioned blocks.
     */
    method InsertEntries(blocks: map<int, BlockRow>, blockTransactions: map<int, seq<TxRow>>, order: seq<int>)
      requires blockTransactions.Keys <= blocks.Keys
      requires forall b :: b in order <==> b in blockTransactions
      modifies this`blocksCache
      ensures blocksCache == old(blocksCache) + Entries(blocks, blockTransactions)
    {
      ghost var base := blocksCache;
      for i := 0 to |order|
        invariant forall b :: b in blocksCache <==> b in base || b in order[..i]
        invariant forall b :: b in blocksCache ==>
          blocksCache[b] == if b in order[..i] then EntryOf(blocks, blockTransactions, b) else base[b]
      {
        assert order[..i + 1] == order[..i] + [order[i]];
        blocksCache := blocksCache[order[i] := EntryOf(blocks, blockTransactions, order[i])];
      }
      assert order[..|order|] == order;
      ghost var entries := Entries(blocks, blockTransactions);
      forall b ensures b in blocksCache <==> b in base + entries {
        assert b in entries <==> b in order;
      }
      assert blocksCache.Keys == (base + entries).Keys;
      assert forall b :: b in blocksCache ==> blocksCache[b] == (base + entries)[b];
    }

    /** Resolves block `n`: the cache, then the store, then the RPC node. */
    method GetBlock(n: int) returns (block: BlockEntry)
      modifies this`blocksCache
      ensures (block, blocksCache) == Lookup(old(blocksCache), dbSession, rpc, n)
    {
      if n in blocksCache {
        return blocksCache[n];
      }
      var fetched := GetBlockFromDb(n, BatchLoadCount);
      if fetched.None? {
        block := rpc(n);
      } else {
        block := fetched.value;
      }
      if |blocksCache| > CacheCapacity {
        blocksCache := map[];
      }
      blocksCache := blocksCache[n := block];
    }

    /** The timestamp of block `n`. */
    method GetBlockTimestamp(n: int) returns (timestamp: int)
      modifies this`blocksCache
      ensures timestamp == Lookup(old(blocksCache), dbSession, rpc, n).0.timestamp
      ensures blocksCache == Lookup(old(blocksCache), dbSession, rpc, n).1
    {
      var block := GetBlock(n);
      timestamp := block.timestamp;
    }

    /** The transactions of block `n` sent to `address`. */
    method GetTransactionsToAddress(address: Address, n: int) returns (txs: seq<W3Tx>)
      modifies this`blocksCache
      ensures txs == TransactionsTo(Lookup(old(blocksCache), dbSession, rpc, n).0.transactions, address)
      ensures blocksCache == Lookup(old(blocksCache), dbSession, rpc, n).1
    {
      var block := GetBlock(n);
      txs := TransactionsTo(block.transactions, address);
    }
  }

  /**
   * The two store queries of one lookup: the batch of block rows from `n`
   * on, by number, and the batch's transactions partitioned per block.
   */
  method QueryBatch(store: Store, n: int, batchLoadCount: nat)
    returns (blocks: map<int, BlockRow>, blockTransactions: map<int, seq<TxRow>>, order: seq<int>)
    ensures blocks == BatchIndex(store, n, batchLoadCount)
    ensures blockTransactions == BatchGroups(store, n, batchLoadCount)
    ensures forall b :: b in order <==> b in blockTransactions
  {
    blocks := BatchIndex(store, n, batchLoadCount);
    var rawBlockTransactions := TxQuery(store.transactions, blocks.Keys);
    blockTransactions, order := PartitionByBlock(rawBlockTransactions);
  }

  /**
   * Appends each transaction row to the list of its block, in query order;
   * `order` is the partition's key order, first appearance first.
   */
  method PartitionByBlock(rawBlockTransactions: seq<TxRow>)
    returns (blockTransactions: map<int, seq<TxRow>>, order: seq<int>)
    ensures blockTransactions == GroupByBlock(rawBlockTransactions)
    ensures order == BlockOrder(rawBlockTransactions)
  {
    blockTransactions := map[];
    order := [];
    var i := 0;
    while i < |rawBlockTransactions|
      invariant 0 <= i <= |rawBlockTransactions|
      invariant blockTransactions == GroupByBlock(rawBlockTransactions[..i])
      invariant order == BlockOrder(rawBlockTransactions[..i])
    {
      var tx := rawBlockTransactions[i];
      GroupByBlockStep(rawBlockTransactions, i);
      ghost var listed := if tx.blockNumber in blockTransactions then blockTransactions[tx.blockNumber] else [];
      ghost var before := blockTransactions;
      if tx.blockNumber !in blockTransactions {
        blockTransactions := blockTransactions[tx.blockNumber := []];
        order := order + [tx.blockNumber];
      }
      blockTransactions := blockTransactions[tx.blockNumber := blockTransactions[tx.blockNumber] + [tx]];
      assert blockTransactions == before[tx.blockNumber := listed + [tx]];
      i := i + 1;
    }
    assert rawBlockTransactions[..i] == rawBlockTransactions;
  }

  /** A store lookup whose batch holds block `n` and its transactions caches the whole batch. */
  lemma FetchedBatch(cache: map<int, BlockEntry>, store: Store, n: int, limit: nat)
    requires n in BatchIndex(store, n, limit) && n in BatchGroups(store, n, limit)
    ensures Prefetch(Some(store), n, limit) == Some(Entries(BatchIndex(store, n, limit), BatchGroups(store, n, limit)))
    ensures AfterPrefetch(cache, Some(store), n, limit) ==
      ClearIfFull(cache) + Entries(BatchIndex(store, n, limit), BatchGroups(store, n, limit))
  {
  }

  lemma GroupByBlockStep(s: seq<TxRow>, i: nat)
    requires i < |s|
    ensures var g := GroupByBlock(s[..i]);
      GroupByBlock(s[..i + 1]) ==
        g[s[i].blockNumber := (if s[i].blockNumber in g then g[s[i].blockNumber] else []) + [s[i]]]
    ensures BlockOrder(s[..i + 1]) ==
      if s[i].blockNumber in TxNumbers(s[..i]) then BlockOrder(s[..i]) else BlockOrder(s[..i]) + [s[i].blockNumber]
  {
    assert s[..i + 1][..i] == s[..i];
  }

  /** Two timestamp queries for the same block, with no session change between, agree. */
  method RepeatedTimestamp(provider: MoonstreamEthereumStateProvider, n: int) returns (first: int, second: int)
    modifies provider`blocksCache
    ensures first == second
  {
    first := provider.GetBlockTimestamp(n);
    ghost var cache := provider.blocksCache;
    second := provider.GetBlockTimestamp(n);
    assert n in cache && cache[n].timestamp == first;
  }
}

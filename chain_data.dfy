/**
 * Chain data as the block resolver sees it: the rows of the persistent
 * store's `blocks` and `transactions` tables, the call-shaped transactions
 * it hands to the crawler, the entries of its in-memory block cache, and
 * the resolution rules (cache, then a batched store lookup, then RPC)
 * stated as functions of the cache and the store.
 */
module ChainData {
  import opened Wrappers
  import opened Sorting

  type Address = string
  type Hash = string

  /** How many store blocks one store lookup prefetches. */
  const BatchLoadCount: nat := 100
  /** The cache is emptied before a write once it holds more entries than this. */
  const CacheCapacity: nat := 500

  /** A row of the store's `blocks` table. */
  datatype BlockRow = BlockRow(blockNumber: int, timestamp: int)

  /** A row of the store's `transactions` table. */
  datatype TxRow = TxRow(
    blockNumber: int,
    fromAddress: Address,
    gas: int,
    gasPrice: Option<int>,
    hash: Hash,
    input: string,
    maxFeePerGas: Option<int>,
    maxPriorityFeePerGas: Option<int>,
    nonce: int,
    toAddress: Option<Address>,
    transactionIndex: int,
    value: int)

  /** A transaction in the shape an RPC node reports it (keyed as web3 keys it). */
  datatype W3Tx = W3Tx(
    blockNumber: int,
    from: Address,
    gas: int,
    gasPrice: Option<int>,
    hash: Hash,
    input: string,
    maxFeePerGas: Option<int>,
    maxPriorityFeePerGas: Option<int>,
    nonce: int,
    to: Option<Address>,
    transactionIndex: int,
    value: int)

  /** What the cache holds for one block. */
  datatype BlockEntry = BlockEntry(timestamp: int, transactions: seq<W3Tx>)

  /** The persistent store: its two chain tables, each an unordered sequence of rows. */
  datatype Store = Store(blocks: seq<BlockRow>, transactions: seq<TxRow>)

  datatype ResolverError = NoSession | EmptyStore

  function BlockKey(b: BlockRow): int { b.blockNumber }
  function TxKey(t: TxRow): int { t.transactionIndex }
  function W3TxKey(w: W3Tx): int { w.transactionIndex }

  ghost predicate HasBlock(store: Store, n: int)
  {
    exists b :: b in store.blocks && b.blockNumber == n
  }

  ghost predicate HasTransactions(store: Store, n: int)
  {
    exists t :: t in store.transactions && t.blockNumber == n
  }

  // ---------------------------------------------------------------------
  // Row conversion

  /** A store transaction row renamed field by field to the RPC shape. */
  function TransformToW3Tx(t: TxRow): (w: W3Tx)
    ensures w.blockNumber == t.blockNumber
    ensures w.to == t.toAddress
    ensures w.transactionIndex == t.transactionIndex
  {
    W3Tx(t.blockNumber, t.fromAddress, t.gas, t.gasPrice, t.hash, t.input, t.maxFeePerGas,
         t.maxPriorityFeePerGas, t.nonce, t.toAddress, t.transactionIndex, t.value)
  }

  /** The inverse renaming, from the RPC shape back to a store row. */
  function RowOfW3Tx(w: W3Tx): TxRow
  {
    TxRow(w.blockNumber, w.from, w.gas, w.gasPrice, w.hash, w.input, w.maxFeePerGas,
          w.maxPriorityFeePerGas, w.nonce, w.to, w.transactionIndex, w.value)
  }

  /** No store field is lost by the conversion. */
  lemma TransformRoundTrip(t: TxRow)
    ensures RowOfW3Tx(TransformToW3Tx(t)) == t
  {
  }

  function TransformAll(txs: seq<TxRow>): (ws: seq<W3Tx>)
    ensures |ws| == |txs|
    ensures forall i :: 0 <= i < |txs| ==> ws[i] == TransformToW3Tx(txs[i])
  {
    seq(|txs|, i requires 0 <= i < |txs| => TransformToW3Tx(txs[i]))
  }

  /** Converting a list keeps its order of transaction indexes. */
  lemma TransformAllSorted(txs: seq<TxRow>)
    requires SortedBy(txs, TxKey)
    ensures SortedBy(TransformAll(txs), W3TxKey)
  {
    var ws := TransformAll(txs);
    forall i, j | 0 <= i < j < |ws| ensures W3TxKey(ws[i]) <= W3TxKey(ws[j]) {
      assert TxKey(txs[i]) <= TxKey(txs[j]);
    }
  }

  // ---------------------------------------------------------------------
  // The store queries of one lookup

  /** The block rows numbered at least `n`, in table order. */
  function BlocksFrom(blocks: seq<BlockRow>, n: int): (r: seq<BlockRow>)
    ensures forall b :: b in r <==> b in blocks && b.blockNumber >= n
  {
    if blocks == [] then []
    else
      var last := blocks[|blocks| - 1];
      var rest := BlocksFrom(blocks[..|blocks| - 1], n);
      assert blocks == blocks[..|blocks| - 1] + [last];
      if last.blockNumber >= n then rest + [last] else rest
  }

  /** The first `limit` block rows numbered at least `n`, in ascending block order. */
  function BatchQuery(blocks: seq<BlockRow>, n: int, limit: nat): (r: seq<BlockRow>)
    ensures |r| <= limit
    ensures forall b :: b in r ==> b in blocks && b.blockNumber >= n
  {
    var sorted := SortBy(BlocksFrom(blocks, n), BlockKey);
    SortByMembers(BlocksFrom(blocks, n), BlockKey);
    sorted[..if |sorted| <= limit then |sorted| else limit]
  }

  /** The block numbers that the block rows mention. */
  function RowNumbers(rows: seq<BlockRow>): set<int>
  {
    if rows == [] then {} else RowNumbers(rows[..|rows| - 1]) + {rows[|rows| - 1].blockNumber}
  }

  /** The batch indexed by block number; a later row wins a repeated number. */
  function IndexByNumber(rows: seq<BlockRow>): (m: map<int, BlockRow>)
    ensures m.Keys == RowNumbers(rows)
    ensures forall k :: k in m ==> m[k] in rows && m[k].blockNumber == k
    ensures |m| <= |rows|
  {
    if rows == [] then map[]
    else
      var last := rows[|rows| - 1];
      var m := IndexByNumber(rows[..|rows| - 1]);
      assert rows == rows[..|rows| - 1] + [last];
      assert (m[last.blockNumber := last]).Keys == m.Keys + {last.blockNumber};
      m[last.blockNumber := last]
  }

  /** The transaction rows whose block is one of `numbers`, in table order. */
  function TxsInBlocks(txs: seq<TxRow>, numbers: set<int>): (r: seq<TxRow>)
    ensures forall t :: t in r <==> t in txs && t.blockNumber in numbers
  {
    if txs == [] then []
    else
      var last := txs[|txs| - 1];
      var rest := TxsInBlocks(txs[..|txs| - 1], numbers);
      assert txs == txs[..|txs| - 1] + [last];
      if last.blockNumber in numbers then rest + [last] else rest
  }

  /** The transaction query of one lookup: the batch's rows by ascending transaction index. */
  function TxQuery(txs: seq<TxRow>, numbers: set<int>): (r: seq<TxRow>)
    ensures forall t :: t in r <==> t in txs && t.blockNumber in numbers
  {
    SortByMembers(TxsInBlocks(txs, numbers), TxKey);
    SortBy(TxsInBlocks(txs, numbers), TxKey)
  }

  /** The rows of `s` that belong to block `b`, in the order of `s`. */
  function OfBlock(s: seq<TxRow>, b: int): (r: seq<TxRow>)
    ensures forall t :: t in r <==> t in s && t.blockNumber == b
  {
    if s == [] then []
    else
      var last := s[|s| - 1];
      var rest := OfBlock(s[..|s| - 1], b);
      assert s == s[..|s| - 1] + [last];
      if last.blockNumber == b then rest + [last] else rest
  }

  /** The block numbers that the transaction rows mention. */
  function TxNumbers(s: seq<TxRow>): set<int>
  {
    if s == [] then {} else TxNumbers(s[..|s| - 1]) + {s[|s| - 1].blockNumber}
  }

  /** The block numbers of the rows in order of first appearance. */
  function BlockOrder(s: seq<TxRow>): (r: seq<int>)
    ensures forall b :: b in r <==> b in TxNumbers(s)
  {
    if s == [] then []
    else
      var last := s[|s| - 1].blockNumber;
      var r := BlockOrder(s[..|s| - 1]);
      if last in TxNumbers(s[..|s| - 1]) then r else r + [last]
  }

  lemma {:induction false} OfBlockAbsent(s: seq<TxRow>, b: int)
    requires b !in TxNumbers(s)
    ensures OfBlock(s, b) == []
  {
    if s != [] {
      OfBlockAbsent(s[..|s| - 1], b);
    }
  }

  lemma {:induction false} TxNumbersWithin(s: seq<TxRow>, numbers: set<int>)
    requires forall t :: t in s ==> t.blockNumber in numbers
    ensures TxNumbers(s) <= numbers
  {
    if s != [] {
      assert s[|s| - 1] in s;
      var init := s[..|s| - 1];
      assert forall t :: t in init ==> t in s;
      TxNumbersWithin(init, numbers);
    }
  }

  /** Partitions rows per block, appending each row to its block's list in turn. */
  function GroupByBlock(s: seq<TxRow>): (g: map<int, seq<TxRow>>)
    ensures g.Keys == TxNumbers(s)
  {
    if s == [] then map[]
    else
      var last := s[|s| - 1];
      var g := GroupByBlock(s[..|s| - 1]);
      g[last.blockNumber := (if last.blockNumber in g then g[last.blockNumber] else []) + [last]]
  }

  /** Each block's list in the partition holds that block's rows in their order. */
  lemma {:induction false} GroupByBlockLists(s: seq<TxRow>, b: int)
    requires b in GroupByBlock(s)
    ensures GroupByBlock(s)[b] == OfBlock(s, b)
  {
    var init := s[..|s| - 1];
    var last := s[|s| - 1];
    var g := GroupByBlock(init);
    if b in g {
      GroupByBlockLists(init, b);
    } else if b == last.blockNumber {
      OfBlockAbsent(init, b);
    }
  }

  /** The cache entries built from the batch rows and the per-block transaction lists. */
  function Entries(rows: map<int, BlockRow>, groups: map<int, seq<TxRow>>): (e: map<int, BlockEntry>)
    requires groups.Keys <= rows.Keys
    ensures e.Keys == groups.Keys
  {
    map b | b in groups :: EntryOf(rows, groups, b)
  }

  /** The entry of one block: its row's timestamp and its rows in RPC shape. */
  function EntryOf(rows: map<int, BlockRow>, groups: map<int, seq<TxRow>>, b: int): BlockEntry
    requires b in groups && b in rows
  {
    BlockEntry(rows[b].timestamp, TransformAll(groups[b]))
  }

  /** The batch of block rows fetched for a lookup of block `n`, by number. */
  function BatchIndex(store: Store, n: int, limit: nat): (m: map<int, BlockRow>)
    ensures |m| <= limit
  {
    IndexByNumber(BatchQuery(store.blocks, n, limit))
  }

  /** The batch's transactions, partitioned per block. */
  function BatchGroups(store: Store, n: int, limit: nat): (g: map<int, seq<TxRow>>)
    ensures g.Keys <= BatchIndex(store, n, limit).Keys
  {
    TxNumbersWithin(TxQuery(store.transactions, BatchIndex(store, n, limit).Keys), BatchIndex(store, n, limit).Keys);
    GroupByBlock(TxQuery(store.transactions, BatchIndex(store, n, limit).Keys))
  }

  /**
   * The entries a store lookup of block `n` writes into the cache, or None
   * when the lookup yields nothing and the resolver must fall back to RPC.
   */
  function Prefetch(session: Option<Store>, n: int, limit: nat): (r: Option<map<int, BlockEntry>>)
    ensures r.Some? ==> n in r.value && |r.value| <= limit
  {
    match session
    case None => None
    case Some(store) => FromBatch(BatchIndex(store, n, limit), BatchGroups(store, n, limit), n)
  }

  /** The entries for a fetched batch, or None when block `n` lacks a row or transactions. */
  function FromBatch(rows: map<int, BlockRow>, groups: map<int, seq<TxRow>>, n: int): (r: Option<map<int, BlockEntry>>)
    requires groups.Keys <= rows.Keys
    ensures r.Some? ==> n in r.value && |r.value| <= |rows|
  {
    SubsetSize(groups.Keys, rows.Keys);
    if n !in rows || n !in groups then None else Some(Entries(rows, groups))
  }

  lemma SubsetSize<T>(a: set<T>, b: set<T>)
    requires a <= b
    ensures |a| <= |b|
  {
    assert b == a + (b - a);
  }

  lemma UnionSize<T>(a: set<T>, b: set<T>)
    ensures |a + b| <= |a| + |b|
  {
    assert a + b == a + (b - a);
    SubsetSize(b - a, b);
  }

  /** The wholesale eviction: a cache over capacity is replaced by an empty one. */
  function ClearIfFull(cache: map<int, BlockEntry>): (c: map<int, BlockEntry>)
    ensures |c| <= CacheCapacity
    ensures c == cache || c == map[]
    ensures |cache| <= CacheCapacity ==> c == cache
  {
    if |cache| > CacheCapacity then map[] else cache
  }

  /** The cache after a store lookup that yielded `fetched`. */
  function AfterFetch(cache: map<int, BlockEntry>, fetched: Option<map<int, BlockEntry>>): map<int, BlockEntry>
  {
    match fetched
    case None => cache
    case Some(entries) => ClearIfFull(cache) + entries
  }

  /** The cache after a store lookup of block `n`. */
  function AfterPrefetch(cache: map<int, BlockEntry>, session: Option<Store>, n: int, limit: nat): map<int, BlockEntry>
  {
    AfterFetch(cache, Prefetch(session, n, limit))
  }

  /**
   * Resolution of block `n` on a cache miss, once the store lookup has
   * yielded `fetched`: the block returned and the cache afterwards.
   */
  function ResolveMiss(cache: map<int, BlockEntry>, fetched: Option<map<int, BlockEntry>>, rpc: int -> BlockEntry, n: int)
    : (BlockEntry, map<int, BlockEntry>)
    requires fetched.Some? ==> n in fetched.value
  {
    var block := match fetched
      case None => rpc(n)
      case Some(entries) => entries[n];
    (block, ClearIfFull(AfterFetch(cache, fetched))[n := block])
  }

  /**
   * Resolution of block `n`: the block returned and the cache afterwards,
   * looking in the cache, then in the store, then asking the RPC node.
   */
  function Lookup(cache: map<int, BlockEntry>, session: Option<Store>, rpc: int -> BlockEntry, n: int)
    : (BlockEntry, map<int, BlockEntry>)
  {
    if n in cache then (cache[n], cache)
    else ResolveMiss(cache, Prefetch(session, n, BatchLoadCount), rpc, n)
  }

  /** The recipient filter: the transactions sent to `address`, in their order. */
  function TransactionsTo(txs: seq<W3Tx>, address: Address): (r: seq<W3Tx>)
    ensures forall w :: w in r ==> w in txs && w.to == Some(address)
  {
    if txs == [] then []
    else (if txs[0].to == Some(address) then [txs[0]] else []) + TransactionsTo(txs[1..], address)
  }

  /** `a` can be obtained from `b` by deleting elements. */
  predicate IsSubsequence<T(==)>(a: seq<T>, b: seq<T>)
    decreases |a| + |b|
  {
    if a == [] then true
    else if b == [] then false
    else if a[0] == b[0] then IsSubsequence(a[1..], b[1..])
    else IsSubsequence(a, b[1..])
  }

  /** The highest block number among the store's block rows. */
  function MaxBlockNumber(blocks: seq<BlockRow>): (m: int)
    requires blocks != []
    ensures exists b :: b in blocks && b.blockNumber == m
    ensures forall b :: b in blocks ==> b.blockNumber <= m
  {
    if |blocks| == 1 then blocks[0].blockNumber
    else
      var rest := MaxBlockNumber(blocks[1..]);
      assert blocks == [blocks[0]] + blocks[1..];
      if blocks[0].blockNumber >= rest then blocks[0].blockNumber else rest
  }

  /** The newest block the store knows; an error without a store or with an empty one. */
  function LastBlockNumber(session: Option<Store>): (r: Result<int, ResolverError>)
    ensures r == Err(NoSession) <==> session.None?
    ensures r == Err(EmptyStore) <==> session.Some? && session.value.blocks == []
    ensures r.Ok? ==> session.Some? && session.value.blocks != []
                      && r.value == MaxBlockNumber(session.value.blocks)
  {
    match session
    case None => Err(NoSession)
    case Some(store) => if store.blocks == [] then Err(EmptyStore) else Ok(MaxBlockNumber(store.blocks))
  }
}

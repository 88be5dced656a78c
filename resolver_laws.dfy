/**
 * Properties of the resolution rules in ChainData: which lookups fall back
 * to RPC, what a store lookup caches, the cache's size bound, and the
 * recipient filter.
 */
module ResolverLaws {
  import opened Wrappers
  import opened Sorting
  import opened ChainData

  // ---------------------------------------------------------------------
  // The store lookup

  /** The block numbers of the block rows are the numbers some row carries. */
  lemma {:induction false} RowNumbersMembers(rows: seq<BlockRow>, k: int)
    ensures k in RowNumbers(rows) <==> exists b :: b in rows && b.blockNumber == k
  {
    if rows != [] {
      var init := rows[..|rows| - 1];
      assert rows == init + [rows[|rows| - 1]];
      RowNumbersMembers(init, k);
    }
  }

  /** The block numbers of the transaction rows are the numbers some row carries. */
  lemma {:induction false} TxNumbersMembers(s: seq<TxRow>, k: int)
    ensures k in TxNumbers(s) <==> exists t :: t in s && t.blockNumber == k
  {
    if s != [] {
      var init := s[..|s| - 1];
      assert s == init + [s[|s| - 1]];
      TxNumbersMembers(init, k);
    }
  }

  /** Block `n` is in its own batch exactly when the store has it and the batch is not empty. */
  lemma BatchContains(store: Store, n: int, limit: nat)
    ensures n in BatchIndex(store, n, limit) <==> limit > 0 && HasBlock(store, n)
  {
    var from := BlocksFrom(store.blocks, n);
    var sorted := SortBy(from, BlockKey);
    SortByMembers(from, BlockKey);
    SortBySorted(from, BlockKey);
    RowNumbersMembers(BatchQuery(store.blocks, n, limit), n);
    if limit > 0 && HasBlock(store, n) {
      var b :| b in store.blocks && b.blockNumber == n;
      assert b in sorted;
      var k :| 0 <= k < |sorted| && sorted[k] == b;
      assert sorted[0] in from;
      assert BlockKey(sorted[0]) <= BlockKey(sorted[k]);
      assert sorted[0] in BatchQuery(store.blocks, n, limit);
    }
  }

  /**
   * The batch is the lowest-numbered block rows from `n` on, in ascending
   * order: as many as the limit allows, and no matching row left out of it
   * is numbered below a row in it.
   */
  lemma BatchQueryLowest(blocks: seq<BlockRow>, n: int, limit: nat)
    ensures SortedBy(BatchQuery(blocks, n, limit), BlockKey)
    ensures |BatchQuery(blocks, n, limit)| == if |BlocksFrom(blocks, n)| <= limit then |BlocksFrom(blocks, n)| else limit
    ensures forall b, x ::
              b in BlocksFrom(blocks, n) && b !in BatchQuery(blocks, n, limit) && x in BatchQuery(blocks, n, limit)
              ==> x.blockNumber <= b.blockNumber
  {
    var from := BlocksFrom(blocks, n);
    var sorted := SortBy(from, BlockKey);
    SortBySorted(from, BlockKey);
    SortByPermutes(from, BlockKey);
    SortByMembers(from, BlockKey);
    assert |sorted| == |multiset(sorted)| == |multiset(from)| == |from|;
    var k := if |sorted| <= limit then |sorted| else limit;
    var batch := sorted[..k];
    assert batch == BatchQuery(blocks, n, limit);
    forall i, j | 0 <= i < j < |batch| ensures BlockKey(batch[i]) <= BlockKey(batch[j]) {
      assert batch[i] == sorted[i] && batch[j] == sorted[j];
    }
    forall b, x | b in from && b !in batch && x in batch ensures x.blockNumber <= b.blockNumber {
      var j :| 0 <= j < |sorted| && sorted[j] == b;
      var i :| 0 <= i < |batch| && batch[i] == x;
      assert sorted[i] == x;
      assert BlockKey(sorted[i]) <= BlockKey(sorted[j]);
    }
  }

  /** A store lookup yields nothing in exactly three cases. */
  lemma PrefetchNoneCases(session: Option<Store>, n: int, limit: nat)
    ensures Prefetch(session, n, limit).None? <==>
      || session.None?
      || !(limit > 0 && HasBlock(session.value, n))
      || !HasTransactions(session.value, n)
  {
    if session.Some? {
      var store := session.value;
      BatchContains(store, n, limit);
      var keys := BatchIndex(store, n, limit).Keys;
      TxNumbersMembers(TxQuery(store.transactions, keys), n);
      if n in keys && HasTransactions(store, n) {
        var t :| t in store.transactions && t.blockNumber == n;
        assert t in TxQuery(store.transactions, keys);
      }
    }
  }

  /** The blocks a store lookup caches: exactly those of the batch that have a transaction. */
  lemma PrefetchCachedBlocks(store: Store, n: int, limit: nat)
    requires Prefetch(Some(store), n, limit).Some?
    ensures forall b :: b in Prefetch(Some(store), n, limit).value <==>
      b in BatchIndex(store, n, limit) && HasTransactions(store, b)
  {
    var keys := BatchIndex(store, n, limit).Keys;
    forall b ensures b in BatchGroups(store, n, limit) <==> b in keys && HasTransactions(store, b) {
      TxNumbersMembers(TxQuery(store.transactions, keys), b);
      if b in keys && HasTransactions(store, b) {
        var t :| t in store.transactions && t.blockNumber == b;
        assert t in TxQuery(store.transactions, keys);
      }
    }
  }

  /** Selecting one block's rows keeps a sorted order sorted. */
  lemma {:induction false} OfBlockSorted(s: seq<TxRow>, b: int)
    requires SortedBy(s, TxKey)
    ensures SortedBy(OfBlock(s, b), TxKey)
  {
    if s != [] {
      var init := s[..|s| - 1];
      var last := s[|s| - 1];
      assert SortedBy(init, TxKey) by {
        forall i, j | 0 <= i < j < |init| ensures TxKey(init[i]) <= TxKey(init[j]) {
          assert init[i] == s[i] && init[j] == s[j];
        }
      }
      OfBlockSorted(init, b);
      var rest := OfBlock(init, b);
      if last.blockNumber == b {
        forall k | 0 <= k < |rest| ensures TxKey(rest[k]) <= TxKey(last) {
          assert rest[k] in init;
          var i :| 0 <= i < |init| && init[i] == rest[k];
          assert s[i] == rest[k];
        }
        var r := rest + [last];
        forall i, j | 0 <= i < j < |r| ensures TxKey(r[i]) <= TxKey(r[j]) {
          if j < |rest| {
            assert r[i] == rest[i] && r[j] == rest[j];
          } else {
            assert r[i] == rest[i] && r[j] == last;
          }
        }
      }
    }
  }

  /** One block's rows occur as often as in the whole table, other rows not at all. */
  lemma {:induction false} OfBlockCount(s: seq<TxRow>, b: int, x: TxRow)
    ensures multiset(OfBlock(s, b))[x] == if x.blockNumber == b then multiset(s)[x] else 0
  {
    if s != [] {
      var init := s[..|s| - 1];
      var last := s[|s| - 1];
      assert s == init + [last];
      OfBlockCount(init, b, x);
    }
  }

  /** Permuting a table permutes each block's rows. */
  lemma OfBlockPermutation(s: seq<TxRow>, t: seq<TxRow>, b: int)
    requires multiset(s) == multiset(t)
    ensures multiset(OfBlock(s, b)) == multiset(OfBlock(t, b))
  {
    forall x ensures multiset(OfBlock(s, b))[x] == multiset(OfBlock(t, b))[x] {
      OfBlockCount(s, b, x);
      OfBlockCount(t, b, x);
    }
  }

  /** Restricting to a set of blocks that includes `b` leaves `b`'s rows alone. */
  lemma {:induction false} OfBlockInBlocks(s: seq<TxRow>, numbers: set<int>, b: int)
    requires b in numbers
    ensures OfBlock(TxsInBlocks(s, numbers), b) == OfBlock(s, b)
  {
    if s != [] {
      var init := s[..|s| - 1];
      var last := s[|s| - 1];
      OfBlockInBlocks(init, numbers, b);
      if last.blockNumber in numbers {
        var f := TxsInBlocks(init, numbers) + [last];
        assert f[..|f| - 1] == TxsInBlocks(init, numbers);
      }
    }
  }

  /**
   * The rows a store lookup lists for one batch block are that block's rows
   * of the store, each once, ordered by transaction index.
   */
  lemma CachedRowsOrdered(txs: seq<TxRow>, numbers: set<int>, b: int)
    requires b in numbers
    ensures SortedBy(OfBlock(TxQuery(txs, numbers), b), TxKey)
    ensures multiset(OfBlock(TxQuery(txs, numbers), b)) == multiset(OfBlock(txs, b))
  {
    var inBlocks := TxsInBlocks(txs, numbers);
    var q := TxQuery(txs, numbers);
    assert q == SortBy(inBlocks, TxKey);
    SortBySorted(inBlocks, TxKey);
    SortByPermutes(inBlocks, TxKey);
    OfBlockSorted(q, b);
    OfBlockPermutation(q, inBlocks, b);
    OfBlockInBlocks(txs, numbers, b);
  }

  /**
   * A cached entry carries a store timestamp of its block and its store
   * transactions, converted, in ascending transaction-index order.
   */
  lemma PrefetchEntry(store: Store, n: int, limit: nat, b: int)
    requires Prefetch(Some(store), n, limit).Some?
    requires b in Prefetch(Some(store), n, limit).value
    ensures var entry := Prefetch(Some(store), n, limit).value[b];
      && (exists row :: row in store.blocks && row.blockNumber == b && row.timestamp == entry.timestamp)
      && entry.transactions == TransformAll(OfBlock(TxQuery(store.transactions, BatchIndex(store, n, limit).Keys), b))
      && SortedBy(entry.transactions, W3TxKey)
      && multiset(OfBlock(TxQuery(store.transactions, BatchIndex(store, n, limit).Keys), b))
         == multiset(OfBlock(store.transactions, b))
  {
    var keys := BatchIndex(store, n, limit).Keys;
    var rows := BatchIndex(store, n, limit);
    assert rows[b] in BatchQuery(store.blocks, n, limit);
    GroupByBlockLists(TxQuery(store.transactions, keys), b);
    CachedRowsOrdered(store.transactions, keys, b);
    TransformAllSorted(OfBlock(TxQuery(store.transactions, keys), b));
  }

  /** A store lookup writes at most `limit` entries, after at most a full cache. */
  lemma FetchSize(cache: map<int, BlockEntry>, fetched: Option<map<int, BlockEntry>>, limit: nat)
    requires fetched.Some? ==> |fetched.value| <= limit
    ensures fetched.None? ==> AfterFetch(cache, fetched) == cache
    ensures fetched.Some? ==> |AfterFetch(cache, fetched)| <= CacheCapacity + limit
  {
    if fetched.Some? {
      var c := ClearIfFull(cache);
      MapUnionSize(c, fetched.value);
    }
  }

  lemma MapUnionSize(c: map<int, BlockEntry>, e: map<int, BlockEntry>)
    ensures |c + e| <= |c| + |e|
  {
    assert (c + e).Keys == c.Keys + e.Keys;
    UnionSize(c.Keys, e.Keys);
  }

  /** `_get_block_from_db` alone may leave the cache at up to 600 entries. */
  lemma PrefetchSize(cache: map<int, BlockEntry>, session: Option<Store>, n: int, limit: nat)
    ensures Prefetch(session, n, limit).None? ==> AfterPrefetch(cache, session, n, limit) == cache
    ensures Prefetch(session, n, limit).Some? ==>
      |AfterPrefetch(cache, session, n, limit)| <= CacheCapacity + limit
  {
    FetchSize(cache, Prefetch(session, n, limit), limit);
  }

  // ---------------------------------------------------------------------
  // The whole lookup

  /** A cache hit returns the cached entry and changes nothing. */
  lemma LookupHit(cache: map<int, BlockEntry>, session: Option<Store>, rpc: int -> BlockEntry, n: int)
    requires n in cache
    ensures Lookup(cache, session, rpc, n) == (cache[n], cache)
  {
  }

  /** After a lookup the block is cached under its number, so a repeated lookup returns the same block. */
  lemma LookupCaches(cache: map<int, BlockEntry>, session: Option<Store>, rpc: int -> BlockEntry, n: int)
    ensures var (block, after) := Lookup(cache, session, rpc, n);
      && n in after && after[n] == block
      && Lookup(after, session, rpc, n) == (block, after)
  {
  }

  /** On a miss the store is asked before the RPC node, and RPC only when the store yields nothing. */
  lemma LookupSource(cache: map<int, BlockEntry>, session: Option<Store>, rpc: int -> BlockEntry, n: int)
    requires n !in cache
    ensures var block := Lookup(cache, session, rpc, n).0;
      match Prefetch(session, n, BatchLoadCount)
      case None => block == rpc(n)
      case Some(entries) => block == entries[n]
    ensures session.None? || !HasBlock(session.value, n) || !HasTransactions(session.value, n)
      ==> Lookup(cache, session, rpc, n).0 == rpc(n)
  {
    PrefetchNoneCases(session, n, BatchLoadCount);
  }

  lemma InsertSize(c: map<int, BlockEntry>, n: int, v: BlockEntry)
    ensures |c[n := v]| == if n in c then |c| else |c| + 1
  {
    if n in c {
      assert (c[n := v]).Keys == c.Keys;
    } else {
      assert (c[n := v]).Keys == c.Keys + {n};
    }
  }

  lemma ResolveMissSize(cache: map<int, BlockEntry>, fetched: Option<map<int, BlockEntry>>, rpc: int -> BlockEntry, n: int)
    requires fetched.Some? ==> n in fetched.value
    requires |cache| <= CacheCapacity + 1
    ensures |ResolveMiss(cache, fetched, rpc, n).1| <= CacheCapacity + 1
  {
    var mid := AfterFetch(cache, fetched);
    var c := ClearIfFull(mid);
    var block := ResolveMiss(cache, fetched, rpc, n).0;
    InsertSize(c, n, block);
    if fetched.Some? {
      assert n in mid;
      assert |c| == CacheCapacity ==> c == mid;
    }
  }

  /** A cache of at most 501 entries stays within 501 entries. */
  lemma LookupSizeBound(cache: map<int, BlockEntry>, session: Option<Store>, rpc: int -> BlockEntry, n: int)
    requires |cache| <= CacheCapacity + 1
    ensures |Lookup(cache, session, rpc, n).1| <= CacheCapacity + 1
  {
    if n !in cache {
      ResolveMissSize(cache, Prefetch(session, n, BatchLoadCount), rpc, n);
    }
  }

  lemma ResolveMissOverflow(cache: map<int, BlockEntry>, fetched: Option<map<int, BlockEntry>>, rpc: int -> BlockEntry, n: int)
    requires fetched.Some? ==> n in fetched.value && |fetched.value| <= CacheCapacity
    requires |cache| > CacheCapacity
    ensures ResolveMiss(cache, fetched, rpc, n).1 ==
      match fetched
      case None => map[n := rpc(n)]
      case Some(entries) => entries
  {
    assert ClearIfFull(cache) == map[];
    if fetched.Some? {
      var entries := fetched.value;
      assert AfterFetch(cache, fetched) == entries;
      assert entries[n := entries[n]] == entries;
    }
  }

  /**
   * A miss on a cache of more than 500 entries empties it first: only the
   * block fetched by RPC, or the entries of the store batch, remain.
   */
  lemma LookupOverflow(cache: map<int, BlockEntry>, session: Option<Store>, rpc: int -> BlockEntry, n: int)
    requires |cache| > CacheCapacity && n !in cache
    ensures Lookup(cache, session, rpc, n).1 ==
      match Prefetch(session, n, BatchLoadCount)
      case None => map[n := rpc(n)]
      case Some(entries) => entries
  {
    ResolveMissOverflow(cache, Prefetch(session, n, BatchLoadCount), rpc, n);
  }

  /**
   * The second clear: a miss whose store batch pushes a cache of at most 500
   * entries past 500 empties the cache again, keeping only block `n` and
   * discarding the rest of the batch just fetched.
   */
  lemma LookupDiscardsBatch(cache: map<int, BlockEntry>, session: Option<Store>, rpc: int -> BlockEntry, n: int)
    requires n !in cache && Prefetch(session, n, BatchLoadCount).Some?
    requires |AfterPrefetch(cache, session, n, BatchLoadCount)| > CacheCapacity
    ensures Lookup(cache, session, rpc, n).0 == Prefetch(session, n, BatchLoadCount).value[n]
    ensures Lookup(cache, session, rpc, n).1 == map[n := Lookup(cache, session, rpc, n).0]
  {
  }

  /** A block the store has is served with a store timestamp, cold or warm. */
  lemma StoreTimestamp(cache: map<int, BlockEntry>, store: Store, rpc: int -> BlockEntry, n: int)
    requires n !in cache && HasBlock(store, n) && HasTransactions(store, n)
    ensures var block := Lookup(cache, Some(store), rpc, n).0;
      exists row :: row in store.blocks && row.blockNumber == n && row.timestamp == block.timestamp
  {
    PrefetchNoneCases(Some(store), n, BatchLoadCount);
    PrefetchEntry(store, n, BatchLoadCount, n);
  }

  // ---------------------------------------------------------------------
  // The recipient filter

  /** The filter keeps the block's order: its result is a subsequence of the block's list. */
  lemma {:induction false} TransactionsToSubsequence(txs: seq<W3Tx>, address: Address)
    ensures IsSubsequence(TransactionsTo(txs, address), txs)
  {
    if txs != [] {
      TransactionsToSubsequence(txs[1..], address);
      var rest := TransactionsTo(txs[1..], address);
      if txs[0].to != Some(address) {
        assert TransactionsTo(txs, address) == rest;
        if rest != [] {
          assert rest[0] in rest;
          assert rest[0] != txs[0];
        }
      }
    }
  }

  /** The filter keeps every transaction to `address` as often as it occurs, and no other. */
  lemma {:induction false} TransactionsToCount(txs: seq<W3Tx>, address: Address, w: W3Tx)
    ensures multiset(TransactionsTo(txs, address))[w] ==
      if w.to == Some(address) then multiset(txs)[w] else 0
  {
    if txs != [] {
      TransactionsToCount(txs[1..], address, w);
      assert txs == [txs[0]] + txs[1..];
    }
  }
}

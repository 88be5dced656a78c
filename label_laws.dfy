/**
 * Properties of the label writers and of the crawl loop's decisions in
 * Labels: which rows a writer removes, adds and leaves alone, that
 * replaying a batch changes nothing, the resume cursor, and the start
 * block.
 */
module LabelLaws {
  import opened Wrappers
  import opened ChainData
  import opened Labels

  // ---------------------------------------------------------------------
  // Deleting: the existing-labels query and what survives it

  /** The query returns every replaced row as often as the table holds it, and nothing else. */
  lemma {:induction false} ExistingCount(rows: seq<LabelRow>, kind: LabelKind, address: Address, hashes: set<Hash>, x: LabelRow)
    ensures multiset(Existing(rows, kind, address, hashes))[x] ==
      if Replaced(x, kind, address, hashes) then multiset(rows)[x] else 0
  {
    if rows != [] {
      var init := rows[..|rows| - 1];
      assert rows == init + [rows[|rows| - 1]];
      ExistingCount(init, kind, address, hashes, x);
    }
  }

  /** The survivors are every other row, as often as the table holds it. */
  lemma {:induction false} SurvivorsCount(rows: seq<LabelRow>, kind: LabelKind, address: Address, hashes: set<Hash>, x: LabelRow)
    ensures multiset(Survivors(rows, kind, address, hashes))[x] ==
      if Replaced(x, kind, address, hashes) then 0 else multiset(rows)[x]
  {
    if rows != [] {
      var init := rows[..|rows| - 1];
      assert rows == init + [rows[|rows| - 1]];
      SurvivorsCount(init, kind, address, hashes, x);
    }
  }

  /** The table splits into the rows the query returns and the rows that survive. */
  lemma ExistingAndSurvivors(rows: seq<LabelRow>, kind: LabelKind, address: Address, hashes: set<Hash>)
    ensures multiset(rows) ==
      multiset(Existing(rows, kind, address, hashes)) + multiset(Survivors(rows, kind, address, hashes))
  {
    forall x ensures multiset(rows)[x] ==
      (multiset(Existing(rows, kind, address, hashes)) + multiset(Survivors(rows, kind, address, hashes)))[x]
    {
      ExistingCount(rows, kind, address, hashes, x);
      SurvivorsCount(rows, kind, address, hashes, x);
    }
  }

  /** Filtering a concatenation filters each part. */
  lemma {:induction false} SurvivorsAppend(a: seq<LabelRow>, b: seq<LabelRow>, kind: LabelKind, address: Address, hashes: set<Hash>)
    ensures Survivors(a + b, kind, address, hashes) ==
      Survivors(a, kind, address, hashes) + Survivors(b, kind, address, hashes)
  {
    if b == [] {
      assert a + b == a;
    } else {
      var init := b[..|b| - 1];
      assert a + b == (a + init) + [b[|b| - 1]];
      assert (a + b)[..|a + b| - 1] == a + init;
      SurvivorsAppend(a, init, kind, address, hashes);
    }
  }

  /** A table with no replaced row survives whole. */
  lemma {:induction false} SurvivorsOfUntouched(rows: seq<LabelRow>, kind: LabelKind, address: Address, hashes: set<Hash>)
    requires forall x :: x in rows ==> !Replaced(x, kind, address, hashes)
    ensures Survivors(rows, kind, address, hashes) == rows
  {
    if rows != [] {
      var init := rows[..|rows| - 1];
      assert rows == init + [rows[|rows| - 1]];
      SurvivorsOfUntouched(init, kind, address, hashes);
    }
  }

  /** A table whose every row is replaced leaves nothing behind. */
  lemma {:induction false} SurvivorsOfReplaced(rows: seq<LabelRow>, kind: LabelKind, address: Address, hashes: set<Hash>)
    requires forall x :: x in rows ==> Replaced(x, kind, address, hashes)
    ensures Survivors(rows, kind, address, hashes) == []
  {
    if rows != [] {
      var init := rows[..|rows| - 1];
      assert rows[|rows| - 1] in rows;
      assert forall x :: x in init ==> x in rows;
      SurvivorsOfReplaced(init, kind, address, hashes);
    }
  }

  /** Deleting a row takes one copy of it out of the table. */
  lemma {:induction false} RemoveOneCount(rows: seq<LabelRow>, row: LabelRow)
    ensures multiset(RemoveOne(rows, row)) == multiset(rows) - multiset{row}
  {
    if rows != [] {
      var init := rows[..|rows| - 1];
      var last := rows[|rows| - 1];
      assert rows == init + [last];
      if last != row {
        RemoveOneCount(init, row);
      }
    }
  }

  /** Deleting a row the query selected leaves the survivors as they were. */
  lemma {:induction false} RemoveOneSurvivors(rows: seq<LabelRow>, row: LabelRow, kind: LabelKind, address: Address, hashes: set<Hash>)
    requires Replaced(row, kind, address, hashes)
    ensures Survivors(RemoveOne(rows, row), kind, address, hashes) == Survivors(rows, kind, address, hashes)
  {
    if rows != [] {
      var init := rows[..|rows| - 1];
      var last := rows[|rows| - 1];
      if last != row {
        RemoveOneSurvivors(init, row, kind, address, hashes);
        var r := RemoveOne(init, row) + [last];
        assert r[..|r| - 1] == RemoveOne(init, row);
      }
    }
  }

  /** One delete of the writer's loop: the row leaves the count of deleted rows, the survivors stay. */
  lemma DeleteStep(rows: seq<LabelRow>, table: seq<LabelRow>, deleted: seq<LabelRow>, row: LabelRow,
                   kind: LabelKind, address: Address, hashes: set<Hash>)
    requires Replaced(row, kind, address, hashes)
    requires multiset(rows) == multiset(table) - multiset(deleted)
    requires Survivors(rows, kind, address, hashes) == Survivors(table, kind, address, hashes)
    ensures multiset(RemoveOne(rows, row)) == multiset(table) - multiset(deleted + [row])
    ensures Survivors(RemoveOne(rows, row), kind, address, hashes) == Survivors(table, kind, address, hashes)
  {
    RemoveOneCount(rows, row);
    RemoveOneSurvivors(rows, row, kind, address, hashes);
    assert multiset(deleted + [row]) == multiset(deleted) + multiset{row};
  }

  /** Once every queried row has been deleted, the table is exactly the survivors. */
  lemma DeletedAll(rows: seq<LabelRow>, table: seq<LabelRow>, kind: LabelKind, address: Address, hashes: set<Hash>)
    requires multiset(rows) == multiset(table) - multiset(Existing(table, kind, address, hashes))
    requires Survivors(rows, kind, address, hashes) == Survivors(table, kind, address, hashes)
    ensures rows == Survivors(table, kind, address, hashes)
  {
    var kept := Survivors(table, kind, address, hashes);
    ExistingAndSurvivors(table, kind, address, hashes);
    assert multiset(rows) == multiset(kept);
    forall x | x in rows ensures !Replaced(x, kind, address, hashes) {
      assert x in multiset(kept);
    }
    SurvivorsOfUntouched(rows, kind, address, hashes);
  }

  /** Deleting queried rows in turn takes out exactly those rows and leaves the survivors alone. */
  lemma {:induction false} RemoveEachQueried(table: seq<LabelRow>, deleted: seq<LabelRow>,
                                             kind: LabelKind, address: Address, hashes: set<Hash>)
    requires forall x :: x in deleted ==> Replaced(x, kind, address, hashes)
    ensures multiset(RemoveEach(table, deleted)) == multiset(table) - multiset(deleted)
    ensures Survivors(RemoveEach(table, deleted), kind, address, hashes) == Survivors(table, kind, address, hashes)
  {
    if deleted != [] {
      var init := deleted[..|deleted| - 1];
      var last := deleted[|deleted| - 1];
      assert deleted == init + [last];
      RemoveEachQueried(table, init, kind, address, hashes);
      DeleteStep(RemoveEach(table, init), table, init, last, kind, address, hashes);
    }
  }

  /** The writer's delete loop, run over the query's rows, leaves exactly the survivors. */
  lemma DeleteQueried(table: seq<LabelRow>, kind: LabelKind, address: Address, hashes: set<Hash>)
    ensures RemoveEach(table, Existing(table, kind, address, hashes)) == Survivors(table, kind, address, hashes)
  {
    var existing := Existing(table, kind, address, hashes);
    RemoveEachQueried(table, existing, kind, address, hashes);
    DeletedAll(RemoveEach(table, existing), table, kind, address, hashes);
  }

  // ---------------------------------------------------------------------
  // The call writer

  /**
   * After the call writer, a row occurs as often as it did unless the
   * existing-labels query selected it, in which case it is gone, plus once
   * for each call whose row it is.
   */
  lemma CallWriterRows(rows: seq<LabelRow>, calls: seq<ContractFunctionCall>, address: Address, x: LabelRow)
    ensures multiset(AfterCallLabels(rows, calls, address))[x] ==
      (if Replaced(x, CallLabels, address, CallHashes(calls)) then 0 else multiset(rows)[x])
      + multiset(CallRows(calls))[x]
  {
    SurvivorsCount(rows, CallLabels, address, CallHashes(calls), x);
  }

  /** Every call row of the batch's hashes for the address is one the batch wrote. */
  lemma CallWriterLeavesNoStaleRow(rows: seq<LabelRow>, calls: seq<ContractFunctionCall>, address: Address, x: LabelRow)
    requires x in AfterCallLabels(rows, calls, address)
    requires Replaced(x, CallLabels, address, CallHashes(calls))
    ensures exists i :: 0 <= i < |calls| && x == CallLabel(calls[i])
  {
    var r := CallRows(calls);
    assert x in r;
    var i :| 0 <= i < |r| && r[i] == x;
  }

  /** The call writer leaves every event row exactly as often as it was. */
  lemma CallWriterKeepsEventRows(rows: seq<LabelRow>, calls: seq<ContractFunctionCall>, address: Address, x: LabelRow)
    requires x.logIndex.Some?
    ensures multiset(AfterCallLabels(rows, calls, address))[x] == multiset(rows)[x]
  {
    CallWriterRows(rows, calls, address, x);
    assert x !in CallRows(calls);
  }

  /** Running the call writer twice on a batch for its own contract equals running it once. */
  lemma CallWriterIdempotent(rows: seq<LabelRow>, calls: seq<ContractFunctionCall>, address: Address)
    requires forall call :: call in calls ==> call.contractAddress == address
    ensures AfterCallLabels(AfterCallLabels(rows, calls, address), calls, address) ==
      AfterCallLabels(rows, calls, address)
  {
    var hashes := CallHashes(calls);
    var kept := Survivors(rows, CallLabels, address, hashes);
    var written := CallRows(calls);
    forall x | x in written ensures Replaced(x, CallLabels, address, hashes) {
      var i :| 0 <= i < |written| && written[i] == x;
      assert calls[i] in calls;
    }
    SurvivorsAppend(kept, written, CallLabels, address, hashes);
    SurvivorsOfUntouched(kept, CallLabels, address, hashes);
    SurvivorsOfReplaced(written, CallLabels, address, hashes);
    assert kept + [] == kept;
  }

  // ---------------------------------------------------------------------
  // The event writer

  /**
   * After the event writer, a row occurs as often as it did unless the
   * existing-labels query selected it, plus once for each event whose row
   * it is.
   */
  lemma EventWriterRows(rows: seq<LabelRow>, events: seq<Event>, address: Address, x: LabelRow)
    ensures multiset(AfterEventLabels(rows, events, address))[x] ==
      (if Replaced(x, EventLabels, address, EventHashes(events)) then 0 else multiset(rows)[x])
      + multiset(EventRows(events))[x]
  {
    SurvivorsCount(rows, EventLabels, address, EventHashes(events), x);
  }

  /** The event writer selects event rows of the batch's hashes whatever their log index. */
  lemma EventWriterSelectsAnyLogIndex(row: LabelRow, events: seq<Event>, address: Address)
    requires row.tag == MoonwormLabel && row.address == address && row.logIndex.Some?
    requires exists event :: event in events && event.transactionHash == row.transactionHash
    ensures Replaced(row, EventLabels, address, EventHashes(events))
  {
  }

  /** The event writer leaves every call row exactly as often as it was. */
  lemma EventWriterKeepsCallRows(rows: seq<LabelRow>, events: seq<Event>, address: Address, x: LabelRow)
    requires x.logIndex.None?
    ensures multiset(AfterEventLabels(rows, events, address))[x] == multiset(rows)[x]
  {
    EventWriterRows(rows, events, address, x);
    assert x !in EventRows(events);
  }

  /** Running the event writer twice on a batch of the contract's events equals running it once. */
  lemma EventWriterIdempotent(rows: seq<LabelRow>, events: seq<Event>, address: Address)
    requires forall event :: event in events ==> event.address == address
    ensures AfterEventLabels(AfterEventLabels(rows, events, address), events, address) ==
      AfterEventLabels(rows, events, address)
  {
    var hashes := EventHashes(events);
    var kept := Survivors(rows, EventLabels, address, hashes);
    var written := EventRows(events);
    forall x | x in written ensures Replaced(x, EventLabels, address, hashes) {
      var i :| 0 <= i < |written| && written[i] == x;
      assert events[i] in events;
    }
    SurvivorsAppend(kept, written, EventLabels, address, hashes);
    SurvivorsOfUntouched(kept, EventLabels, address, hashes);
    SurvivorsOfReplaced(written, EventLabels, address, hashes);
    assert kept + [] == kept;
  }

  // ---------------------------------------------------------------------
  // A cycle's persist step

  /** A writer given an empty batch leaves the table as it is. */
  lemma WritersOfEmptyBatch(rows: seq<LabelRow>, address: Address)
    ensures AfterCallLabels(rows, [], address) == rows
    ensures AfterEventLabels(rows, [], address) == rows
  {
    SurvivorsOfUntouched(rows, CallLabels, address, CallHashes([]));
    SurvivorsOfUntouched(rows, EventLabels, address, EventHashes([]));
    assert rows + [] == rows;
  }

  /** Each writer leaves the other writer's fresh rows alone. */
  lemma WrittenRowsOfOtherKind(calls: seq<ContractFunctionCall>, events: seq<Event>, address: Address)
    ensures Survivors(EventRows(events), CallLabels, address, CallHashes(calls)) == EventRows(events)
    ensures Survivors(CallRows(calls), EventLabels, address, EventHashes(events)) == CallRows(calls)
  {
    var e := EventRows(events);
    var c := CallRows(calls);
    forall x | x in e ensures !Replaced(x, CallLabels, address, CallHashes(calls)) {
      var i :| 0 <= i < |e| && e[i] == x;
    }
    forall x | x in c ensures !Replaced(x, EventLabels, address, EventHashes(events)) {
      var i :| 0 <= i < |c| && c[i] == x;
    }
    SurvivorsOfUntouched(e, CallLabels, address, CallHashes(calls));
    SurvivorsOfUntouched(c, EventLabels, address, EventHashes(events));
  }

  /** The table after a persist step: the rows neither writer selected, the call rows, the event rows. */
  lemma PersistShape(rows: seq<LabelRow>, calls: seq<ContractFunctionCall>, events: seq<Event>, address: Address)
    ensures Persist(rows, calls, events, address) ==
      Survivors(Survivors(rows, CallLabels, address, CallHashes(calls)), EventLabels, address, EventHashes(events))
      + CallRows(calls) + EventRows(events)
  {
    var kept := Survivors(rows, CallLabels, address, CallHashes(calls));
    WritersOfEmptyBatch(rows, address);
    WritersOfEmptyBatch(AfterCallLabels(rows, calls, address), address);
    WrittenRowsOfOtherKind(calls, events, address);
    SurvivorsAppend(kept, CallRows(calls), EventLabels, address, EventHashes(events));
  }

  /**
   * Filtering with one writer's query a table of untouched rows, rows it
   * selects and rows it leaves: the selected ones go.
   */
  lemma FilterMiddle(kept: seq<LabelRow>, mid: seq<LabelRow>, tail: seq<LabelRow>,
                     kind: LabelKind, address: Address, hashes: set<Hash>)
    requires forall x :: x in kept ==> !Replaced(x, kind, address, hashes)
    requires forall x :: x in mid ==> Replaced(x, kind, address, hashes)
    requires forall x :: x in tail ==> !Replaced(x, kind, address, hashes)
    ensures Survivors(kept + mid + tail, kind, address, hashes) == kept + tail
  {
    SurvivorsAppend(kept + mid, tail, kind, address, hashes);
    SurvivorsAppend(kept, mid, kind, address, hashes);
    SurvivorsOfUntouched(kept, kind, address, hashes);
    SurvivorsOfReplaced(mid, kind, address, hashes);
    SurvivorsOfUntouched(tail, kind, address, hashes);
    assert kept + [] == kept;
  }

  /**
   * Filtering a persisted table again: rows of neither query stay, and the
   * batch's own rows, all selected by their writer's query, go.
   */
  lemma RefilterPersisted(kept: seq<LabelRow>, c: seq<LabelRow>, e: seq<LabelRow>,
                          address: Address, ch: set<Hash>, eh: set<Hash>)
    requires forall x :: x in kept ==> !Replaced(x, CallLabels, address, ch) && !Replaced(x, EventLabels, address, eh)
    requires forall x :: x in c ==> Replaced(x, CallLabels, address, ch)
    requires forall x :: x in e ==> Replaced(x, EventLabels, address, eh) && !Replaced(x, CallLabels, address, ch)
    ensures Survivors(Survivors(kept + c + e, CallLabels, address, ch), EventLabels, address, eh) == kept
  {
    FilterMiddle(kept, c, e, CallLabels, address, ch);
    FilterMiddle(kept, e, [], EventLabels, address, eh);
    assert kept + e + [] == kept + e;
  }

  /** A batch for the writer's own contract consists of rows its query selects. */
  lemma BatchRowsReplaced(calls: seq<ContractFunctionCall>, events: seq<Event>, address: Address)
    requires forall call :: call in calls ==> call.contractAddress == address
    requires forall event :: event in events ==> event.address == address
    ensures forall x :: x in CallRows(calls) ==> Replaced(x, CallLabels, address, CallHashes(calls))
    ensures forall x :: x in EventRows(events) ==> Replaced(x, EventLabels, address, EventHashes(events))
  {
    var c := CallRows(calls);
    var e := EventRows(events);
    forall x | x in c ensures Replaced(x, CallLabels, address, CallHashes(calls)) {
      var i :| 0 <= i < |c| && c[i] == x;
      assert calls[i] in calls;
    }
    forall x | x in e ensures Replaced(x, EventLabels, address, EventHashes(events)) {
      var i :| 0 <= i < |e| && e[i] == x;
      assert events[i] in events;
    }
  }

  /**
   * Persisting a window's calls and events a second time leaves the table
   * as persisting them once did, so re-crawling a window is harmless.
   */
  lemma PersistIdempotent(rows: seq<LabelRow>, calls: seq<ContractFunctionCall>, events: seq<Event>, address: Address)
    requires forall call :: call in calls ==> call.contractAddress == address
    requires forall event :: event in events ==> event.address == address
    ensures Persist(Persist(rows, calls, events, address), calls, events, address) ==
      Persist(rows, calls, events, address)
  {
    var ch := CallHashes(calls);
    var eh := EventHashes(events);
    var keptC := Survivors(rows, CallLabels, address, ch);
    var kept := Survivors(keptC, EventLabels, address, eh);
    var once := Persist(rows, calls, events, address);
    PersistShape(rows, calls, events, address);
    PersistShape(once, calls, events, address);
    BatchRowsReplaced(calls, events, address);
    WrittenRowsOfOtherKind(calls, events, address);
    forall x | x in EventRows(events) ensures !Replaced(x, CallLabels, address, ch) {
      assert x in Survivors(EventRows(events), CallLabels, address, ch);
    }
    forall x | x in kept ensures !Replaced(x, CallLabels, address, ch) && !Replaced(x, EventLabels, address, eh) {
      assert x in keptC;
    }
    RefilterPersisted(kept, CallRows(calls), EventRows(events), address, ch, eh);
  }

  // ---------------------------------------------------------------------
  // The crawled windows

  /** Appending the next window keeps the windows contiguous. */
  lemma ContiguousStep(windows: seq<(int, int)>, start: int, cursor: int, end: int)
    requires Contiguous(windows, start, cursor) && cursor <= end
    ensures Contiguous(windows + [(cursor, end)], start, end + 1)
  {
    assert (windows + [(cursor, end)])[..|windows|] == windows;
  }

  /** Contiguous windows never overlap and only move forwards. */
  lemma {:induction false} ContiguousOrdered(windows: seq<(int, int)>, start: int, cursor: int)
    requires Contiguous(windows, start, cursor)
    ensures start <= cursor
    ensures forall i :: 0 <= i < |windows| ==> start <= windows[i].0 <= windows[i].1 < cursor
    ensures forall i, j :: 0 <= i < j < |windows| ==> windows[i].1 < windows[j].0
  {
    if windows != [] {
      var init := windows[..|windows| - 1];
      var last := windows[|windows| - 1];
      ContiguousOrdered(init, start, last.0);
    }
  }

  /** Contiguous windows cover every block from the start up to the cursor, none skipped. */
  lemma {:induction false} ContiguousCovers(windows: seq<(int, int)>, start: int, cursor: int, b: int)
    requires Contiguous(windows, start, cursor)
    requires start <= b < cursor
    ensures exists i :: 0 <= i < |windows| && windows[i].0 <= b <= windows[i].1
  {
    var init := windows[..|windows| - 1];
    var last := windows[|windows| - 1];
    if b < last.0 {
      ContiguousCovers(init, start, last.0, b);
      var i :| 0 <= i < |init| && init[i].0 <= b <= init[i].1;
      assert windows[i] == init[i];
    } else {
      assert windows[|windows| - 1] == last;
    }
  }

  // ---------------------------------------------------------------------
  // The resume cursor and the start block

  /** The resume cursor is the largest block number among the crawler's rows, None without any. */
  lemma {:induction false} LastCrawledBlockIsMax(rows: seq<LabelRow>, address: Address)
    ensures LastCrawledBlock(rows, address).None? <==>
      forall row :: row in rows ==> !CrawledBy(row, address)
    ensures LastCrawledBlock(rows, address).Some? ==>
      && (exists row :: row in rows && CrawledBy(row, address)
                        && row.blockNumber == LastCrawledBlock(rows, address).value)
      && (forall row :: row in rows && CrawledBy(row, address)
                        ==> row.blockNumber <= LastCrawledBlock(rows, address).value)
  {
    if rows != [] {
      var init := rows[..|rows| - 1];
      var last := rows[|rows| - 1];
      assert rows == init + [last];
      LastCrawledBlockIsMax(init, address);
    }
  }

  /** Without a start block the crawl resumes at the cursor, or starts below the head. */
  lemma ResumeWithoutStartBlock(forceStart: bool, lastCrawled: Option<int>, head: int, numConfirmations: int)
    requires !forceStart
    ensures lastCrawled.Some? ==> InitialCursor(None, forceStart, lastCrawled, head, numConfirmations) == Ok(lastCrawled.value)
    ensures lastCrawled.None? ==> InitialCursor(None, forceStart, lastCrawled, head, numConfirmations) == Ok(head - 2 * numConfirmations)
  {
  }

  /** An explicit start block is used as given when forced or with no labels; otherwise raised to the cursor. */
  lemma ResumeWithStartBlock(startBlock: int, forceStart: bool, lastCrawled: Option<int>, head: int, numConfirmations: int)
    ensures (forceStart || lastCrawled.None?) ==>
      InitialCursor(Some(startBlock), forceStart, lastCrawled, head, numConfirmations) == Ok(startBlock)
    ensures !forceStart && lastCrawled.Some? ==>
      InitialCursor(Some(startBlock), forceStart, lastCrawled, head, numConfirmations) ==
        Ok(if startBlock > lastCrawled.value then startBlock else lastCrawled.value)
  {
  }

  /**
   * Unless forced, the crawl never starts before a block the crawler has
   * labelled: it resumes at (and so re-crawls) its last labelled block.
   */
  lemma ResumeNotBeforeLabels(rows: seq<LabelRow>, address: Address, startBlock: Option<int>, forceStart: bool,
                              head: int, numConfirmations: int)
    requires !forceStart
    ensures var r := InitialCursor(startBlock, forceStart, LastCrawledBlock(rows, address), head, numConfirmations);
      r.Ok? && forall row :: row in rows && CrawledBy(row, address) ==> row.blockNumber <= r.value
  {
    LastCrawledBlockIsMax(rows, address);
  }
}

/**
 * The contract watcher: the label table behind a store session, the two
 * delete-then-insert label writers, the in-memory call buffer, and the
 * crawl loop with its cursor and backoff.
 */
module CuWatch {
  import opened Wrappers
  import opened ChainData
  import opened Labels
  import opened LabelLaws

  /** The labels table as a store session sees it once its commits have succeeded. */
  class LabelSession {
    var rows: seq<LabelRow>

    constructor (rows: seq<LabelRow>)
      ensures this.rows == rows
    {
      this.rows := rows;
    }

    /** `session.delete(row)`. */
    method Delete(row: LabelRow)
      modifies this`rows
      ensures rows == RemoveOne(old(rows), row)
    {
      rows := RemoveOne(rows, row);
    }

    /** `session.add(row)`. */
    method Add(row: LabelRow)
      modifies this`rows
      ensures rows == old(rows) + [row]
    {
      rows := rows + [row];
    }
  }

  /**
   * The delete loop of a writer: deletes each row the existing-labels query
   * returned, leaving exactly the rows the query does not select.
   */
  method DeleteExisting(session: LabelSession, kind: LabelKind, address: Address, hashes: set<Hash>)
    modifies session`rows
    ensures session.rows == Survivors(old(session.rows), kind, address, hashes)
  {
    ghost var table := session.rows;
    var existing := Existing(session.rows, kind, address, hashes);
    for i := 0 to |existing|
      invariant session.rows == RemoveEach(table, existing[..i])
    {
      assert existing[..i + 1][..i] == existing[..i];
      session.Delete(existing[i]);
    }
    assert existing[..|existing|] == existing;
    DeleteQueried(table, kind, address, hashes);
  }

  /** `_add_function_call_labels`: replaces the batch's call rows for `address`. */
  method AddFunctionCallLabels(session: LabelSession, functionCalls: seq<ContractFunctionCall>, address: Address)
    modifies session`rows
    ensures session.rows == AfterCallLabels(old(session.rows), functionCalls, address)
  {
    DeleteExisting(session, CallLabels, address, CallHashes(functionCalls));
    ghost var kept := session.rows;
    for i := 0 to |functionCalls|
      invariant session.rows == kept + CallRows(functionCalls[..i])
    {
      assert functionCalls[..i + 1][..i] == functionCalls[..i];
      session.Add(CallLabel(functionCalls[i]));
    }
    assert functionCalls[..|functionCalls|] == functionCalls;
  }

  /** `_add_event_labels`: replaces the batch's event rows for `address`. */
  method AddEventLabels(session: LabelSession, events: seq<Event>, address: Address)
    modifies session`rows
    ensures session.rows == AfterEventLabels(old(session.rows), events, address)
  {
    DeleteExisting(session, EventLabels, address, EventHashes(events));
    ghost var kept := session.rows;
    for i := 0 to |events|
      invariant session.rows == kept + EventRows(events[..i])
    {
      assert events[..i + 1][..i] == events[..i];
      session.Add(EventLabel(events[i]));
    }
    assert events[..|events|] == events;
  }

  /** `_get_last_crawled_block`: the resume cursor stored in the labels table. */
  method GetLastCrawledBlock(session: LabelSession, contractAddress: Address) returns (r: Option<int>)
    ensures r.None? <==> forall row :: row in session.rows ==> !CrawledBy(row, contractAddress)
    ensures r.Some? ==> exists row :: row in session.rows && CrawledBy(row, contractAddress) && row.blockNumber == r.value
    ensures r.Some? ==> forall row :: row in session.rows && CrawledBy(row, contractAddress) ==> row.blockNumber <= r.value
    ensures r == LastCrawledBlock(session.rows, contractAddress)
  {
    r := LastCrawledBlock(session.rows, contractAddress);
    LastCrawledBlockIsMax(session.rows, contractAddress);
  }

  /** The function-call crawler's state: a buffer of registered calls. */
  class MockState {
    var state: seq<ContractFunctionCall>

    constructor ()
      ensures state == []
    {
      state := [];
    }

    /** This state keeps no cursor of its own. */
    method GetLastCrawledBlock() returns (r: int)
      ensures r == 0
    {
      r := 0;
    }

    method RegisterCall(functionCall: ContractFunctionCall)
      modifies this`state
      ensures state == old(state) + [functionCall]
    {
      state := state + [functionCall];
    }

    method Flush()
      modifies this`state
      ensures state == []
    {
      state := [];
    }
  }

  /**
   * What the chain shows one cycle: its head, the calls the crawler decodes
   * in the window, and the window's events fetched for each event ABI.
   */
  datatype Observation = Observation(head: int, calls: seq<ContractFunctionCall>, eventChunks: seq<seq<Event>>)

  /** The events of all chunks, chunk by chunk. */
  function Concat(chunks: seq<seq<Event>>): seq<Event>
  {
    if chunks == [] then [] else Concat(chunks[..|chunks| - 1]) + chunks[|chunks| - 1]
  }

  /** An event is collected exactly when some chunk holds it. */
  lemma {:induction false} ConcatMembers(chunks: seq<seq<Event>>, e: Event)
    ensures e in Concat(chunks) <==> exists i :: 0 <= i < |chunks| && e in chunks[i]
  {
    if chunks != [] {
      var init := chunks[..|chunks| - 1];
      ConcatMembers(init, e);
      if e in chunks[|chunks| - 1] {
        assert e in Concat(chunks);
      }
      if exists i :: 0 <= i < |chunks| && e in chunks[i] {
        var i :| 0 <= i < |chunks| && e in chunks[i];
        if i < |init| {
          assert e in init[i];
        }
      }
    }
  }

  /** The loop gathering every fetched event of the window into one list. */
  method CollectEvents(chunks: seq<seq<Event>>) returns (allEvents: seq<Event>)
    ensures allEvents == Concat(chunks)
  {
    allEvents := [];
    for i := 0 to |chunks|
      invariant allEvents == Concat(chunks[..i])
    {
      assert chunks[..i + 1][..i] == chunks[..i];
      for j := 0 to |chunks[i]|
        invariant allEvents == Concat(chunks[..i]) + chunks[i][..j]
      {
        assert chunks[i][..j + 1] == chunks[i][..j] + [chunks[i][j]];
        allEvents := allEvents + [chunks[i][j]];
      }
      assert chunks[i][..|chunks[i]|] == chunks[i];
    }
    assert chunks[..|chunks|] == chunks;
  }

  /** What the crawl loop carries from one cycle to the next: the table, the cursor and the sleep time. */
  datatype CrawlState = CrawlState(rows: seq<LabelRow>, cursor: int, sleepTime: real)

  /**
   * One cycle on values: a window ending before the cursor doubles the
   * sleep; otherwise the window is persisted, the sleep halves and the
   * cursor moves past the window.
   */
  function Step(s: CrawlState, observation: Observation, address: Address, numConfirmations: int): (r: CrawlState)
    ensures s.cursor <= r.cursor <= s.cursor + 6
    ensures r.cursor == s.cursor <==> EndBlock(observation.head, numConfirmations, s.cursor) < s.cursor
    ensures r.cursor == s.cursor ==> r.rows == s.rows && r.sleepTime == s.sleepTime * 2.0
    ensures r.cursor > s.cursor ==> r.sleepTime == s.sleepTime / 2.0
  {
    var end := EndBlock(observation.head, numConfirmations, s.cursor);
    if end < s.cursor then CrawlState(s.rows, s.cursor, s.sleepTime * 2.0)
    else CrawlState(Persist(s.rows, observation.calls, Concat(observation.eventChunks), address), end + 1, s.sleepTime / 2.0)
  }

  /** The state after one cycle per observation, in order. */
  function Run(s: CrawlState, observations: seq<Observation>, address: Address, numConfirmations: int): CrawlState
  {
    if observations == [] then s
    else Step(Run(s, observations[..|observations| - 1], address, numConfirmations),
              observations[|observations| - 1], address, numConfirmations)
  }

  /** The cursor never moves back, and moves at most six blocks per cycle. */
  lemma {:induction false} RunCursorBounds(s: CrawlState, observations: seq<Observation>, address: Address, numConfirmations: int)
    ensures s.cursor <= Run(s, observations, address, numConfirmations).cursor <= s.cursor + 6 * |observations|
  {
    if observations != [] {
      RunCursorBounds(s, observations[..|observations| - 1], address, numConfirmations);
    }
  }

  /** A run whose every cycle stalls leaves the table and the cursor where they were. */
  lemma {:induction false} RunStalled(s: CrawlState, observations: seq<Observation>, address: Address, numConfirmations: int)
    requires forall i :: 0 <= i < |observations| ==> EndBlock(observations[i].head, numConfirmations, s.cursor) < s.cursor
    ensures Run(s, observations, address, numConfirmations).rows == s.rows
    ensures Run(s, observations, address, numConfirmations).cursor == s.cursor
  {
    if observations != [] {
      var init := observations[..|observations| - 1];
      assert forall i :: 0 <= i < |init| ==> init[i] == observations[i];
      RunStalled(s, init, address, numConfirmations);
    }
  }

  /** The crawl loop's state across cycles. */
  class Watcher {
    const session: LabelSession
    const functionCallState: MockState
    const contractAddress: Address
    const numConfirmations: int
    /** The block the crawl started from. */
    ghost const startBlock: int
    var currentBlock: int
    var sleepTime: real
    /** The windows crawled so far, oldest first. */
    ghost var crawled: seq<(int, int)>

    /** Between cycles the call buffer is empty and the crawled windows lead up to the cursor. */
    ghost predicate Valid()
      reads this, functionCallState
    {
      functionCallState.state == [] && Contiguous(crawled, startBlock, currentBlock)
    }

    constructor (session: LabelSession, contractAddress: Address, numConfirmations: int,
                 sleepTime: real, currentBlock: int)
      ensures Valid()
      ensures this.session == session && this.contractAddress == contractAddress
      ensures this.numConfirmations == numConfirmations
      ensures this.sleepTime == sleepTime && this.currentBlock == currentBlock
      ensures startBlock == currentBlock && crawled == []
      ensures fresh(functionCallState)
    {
      this.session := session;
      functionCallState := new MockState();
      this.contractAddress := contractAddress;
      this.numConfirmations := numConfirmations;
      this.startBlock := currentBlock;
      this.currentBlock := currentBlock;
      this.sleepTime := sleepTime;
      crawled := [];
    }

    /** `crawler.crawl(current_block, end_block)`: the crawler registers each call it decodes. */
    method Crawl(calls: seq<ContractFunctionCall>)
      modifies functionCallState`state
      ensures functionCallState.state == old(functionCallState.state) + calls
    {
      for i := 0 to |calls|
        invariant functionCallState.state == old(functionCallState.state) + calls[..i]
      {
        assert calls[..i + 1] == calls[..i] + [calls[i]];
        functionCallState.RegisterCall(calls[i]);
      }
      assert calls[..|calls|] == calls;
    }

    /**
     * The work of a progressing cycle: crawl the window's calls, write their
     * labels and flush the buffer, then write the window's event labels.
     */
    method CrawlAndPersist(observation: Observation)
      requires functionCallState.state == []
      modifies session`rows, functionCallState`state
      ensures functionCallState.state == []
      ensures session.rows == Persist(old(session.rows), observation.calls, Concat(observation.eventChunks), contractAddress)
    {
      Crawl(observation.calls);
      assert functionCallState.state == observation.calls;
      if functionCallState.state != [] {
        AddFunctionCallLabels(session, functionCallState.state, contractAddress);
        functionCallState.Flush();
      }
      var allEvents := CollectEvents(observation.eventChunks);
      if allEvents != [] {
        AddEventLabels(session, allEvents, contractAddress);
      }
    }

    /**
     * One pass of the loop. A window ending before the cursor is a stall:
     * the sleep doubles and nothing else changes. Otherwise the sleep
     * halves, the window's calls and events are persisted, and the cursor
     * moves past the window.
     */
    method Cycle(observation: Observation) returns (progressed: bool)
      requires Valid()
      modifies this`currentBlock, this`sleepTime, this`crawled, session`rows, functionCallState`state
      ensures Valid()
      ensures var end := EndBlock(observation.head, numConfirmations, old(currentBlock));
        progressed <==> end >= old(currentBlock)
      ensures !progressed ==>
        && sleepTime == old(sleepTime) * 2.0
        && currentBlock == old(currentBlock)
        && crawled == old(crawled)
        && session.rows == old(session.rows)
      ensures progressed ==>
        var end := EndBlock(observation.head, numConfirmations, old(currentBlock));
        && sleepTime == old(sleepTime) / 2.0
        && currentBlock == end + 1 > old(currentBlock)
        && crawled == old(crawled) + [(old(currentBlock), end)]
        && session.rows == Persist(old(session.rows), observation.calls, Concat(observation.eventChunks), contractAddress)
      ensures CrawlState(session.rows, currentBlock, sleepTime) ==
        Step(CrawlState(old(session.rows), old(currentBlock), old(sleepTime)), observation, contractAddress, numConfirmations)
    {
      var endBlock := EndBlock(observation.head, numConfirmations, currentBlock);
      if endBlock < currentBlock {
        sleepTime := sleepTime * 2.0;
        return false;
      }
      sleepTime := sleepTime / 2.0;
      CrawlAndPersist(observation);
      ContiguousStep(crawled, startBlock, currentBlock, endBlock);
      crawled := crawled + [(currentBlock, endBlock)];
      currentBlock := endBlock + 1;
      progressed := true;
    }
  }

  /**
   * `watch_cu_contract`: refuses to force a start without a start block,
   * picks the starting cursor, then runs one cycle per observation.
   */
  method WatchCuContract(session: LabelSession, contractAddress: Address, numConfirmations: int,
                         sleepTime: real, startBlock: Option<int>, forceStart: bool,
                         startupHead: int, observations: seq<Observation>)
    returns (r: Result<Watcher, StartupError>)
    modifies session`rows
    ensures r.Err? <==> forceStart && startBlock.None?
    ensures r.Err? ==> session.rows == old(session.rows)
    ensures r.Ok? ==>
      var cursor := InitialCursor(startBlock, forceStart, LastCrawledBlock(old(session.rows), contractAddress),
                                  startupHead, numConfirmations);
      && r.value.Valid()
      && r.value.session == session
      && r.value.startBlock == cursor.value
      && r.value.currentBlock >= cursor.value
      && (forall i :: 0 <= i < |r.value.crawled| ==>
            cursor.value <= r.value.crawled[i].0 <= r.value.crawled[i].1 < r.value.currentBlock)
      && (forall i, j :: 0 <= i < j < |r.value.crawled| ==> r.value.crawled[i].1 < r.value.crawled[j].0)
      && CrawlState(session.rows, r.value.currentBlock, r.value.sleepTime) ==
         Run(CrawlState(old(session.rows), cursor.value, sleepTime), observations, contractAddress, numConfirmations)
  {
    if forceStart && startBlock.None? {
      return Err(StartBlockRequired);
    }
    var lastCrawledBlock := GetLastCrawledBlock(session, contractAddress);
    var currentBlock: int;
    if startBlock.None? {
      if lastCrawledBlock.Some? {
        currentBlock := lastCrawledBlock.value;
      } else {
        currentBlock := startupHead - numConfirmations * 2;
      }
    } else {
      currentBlock := startBlock.value;
      if !forceStart && lastCrawledBlock.Some? {
        if startBlock.value <= lastCrawledBlock.value {
          currentBlock := lastCrawledBlock.value;
        }
      }
    }
    assert Ok(currentBlock) == InitialCursor(startBlock, forceStart, lastCrawledBlock, startupHead, numConfirmations);
    ghost var initial := CrawlState(session.rows, currentBlock, sleepTime);
    var watcher := new Watcher(session, contractAddress, numConfirmations, sleepTime, currentBlock);
    for i := 0 to |observations|
      invariant watcher.Valid()
      invariant watcher.session == session && watcher.startBlock == currentBlock
      invariant watcher.contractAddress == contractAddress && watcher.numConfirmations == numConfirmations
      invariant fresh(watcher.functionCallState)
      invariant CrawlState(session.rows, watcher.currentBlock, watcher.sleepTime) ==
        Run(initial, observations[..i], contractAddress, numConfirmations)
    {
      assert observations[..i + 1][..i] == observations[..i];
      var _ := watcher.Cycle(observations[i]);
    }
    assert observations[..|observations|] == observations;
    ContiguousOrdered(watcher.crawled, watcher.startBlock, watcher.currentBlock);
    r := Ok(watcher);
  }
}

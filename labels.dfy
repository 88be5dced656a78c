/**
 * The label table and the decisions of the crawl loop, as values: the rows
 * the two label writers delete and add, the resume cursor read from the
 * table, the start-block selection and the per-cycle confirmation window.
 */
module Labels {
  import opened Wrappers
  import opened ChainData

  /** The tag every row this crawler writes carries. */
  const MoonwormLabel: string := "moonworm"

  /** The structured payload of a label row; arguments are kept as opaque JSON text. */
  datatype LabelData =
    | TxCallData(name: string, caller: Address, args: string, status: int, gasUsed: int)
    | EventData(name: string, args: string)

  /** A row of the labels table; call rows have no log index, event rows have one. */
  datatype LabelRow = LabelRow(
    tag: string,
    labelData: LabelData,
    address: Address,
    blockNumber: int,
    transactionHash: Hash,
    blockTimestamp: int,
    logIndex: Option<int>)

  /** A decoded contract function call, as the function-call crawler reports it. */
  datatype ContractFunctionCall = ContractFunctionCall(
    blockNumber: int,
    blockTimestamp: int,
    transactionHash: Hash,
    contractAddress: Address,
    callerAddress: Address,
    functionName: string,
    functionArgs: string,
    gasUsed: int,
    status: int)

  /** A decoded event log with its block's timestamp. */
  datatype Event = Event(
    event: string,
    args: string,
    address: Address,
    blockNumber: int,
    transactionHash: Hash,
    blockTimestamp: int,
    logIndex: int)

  /** Which of the two writers: call rows or event rows. */
  datatype LabelKind = CallLabels | EventLabels

  // ---------------------------------------------------------------------
  // The rows the writers build

  /** The row written for one function call. */
  function CallLabel(call: ContractFunctionCall): (row: LabelRow)
    ensures row.tag == MoonwormLabel && row.logIndex.None?
    ensures row.address == call.contractAddress && row.transactionHash == call.transactionHash
    ensures row.blockNumber == call.blockNumber && row.blockTimestamp == call.blockTimestamp
  {
    LabelRow(
      MoonwormLabel,
      TxCallData(call.functionName, call.callerAddress, call.functionArgs, call.status, call.gasUsed),
      call.contractAddress, call.blockNumber, call.transactionHash, call.blockTimestamp, None)
  }

  /** The row written for one event. */
  function EventLabel(event: Event): (row: LabelRow)
    ensures row.tag == MoonwormLabel && row.logIndex == Some(event.logIndex)
    ensures row.address == event.address && row.transactionHash == event.transactionHash
    ensures row.blockNumber == event.blockNumber && row.blockTimestamp == event.blockTimestamp
  {
    LabelRow(
      MoonwormLabel, EventData(event.event, event.args),
      event.address, event.blockNumber, event.transactionHash, event.blockTimestamp, Some(event.logIndex))
  }

  /** The transaction hashes of a batch of calls. */
  function CallHashes(calls: seq<ContractFunctionCall>): set<Hash>
  {
    set call | call in calls :: call.transactionHash
  }

  /** The transaction hashes of a batch of events. */
  function EventHashes(events: seq<Event>): set<Hash>
  {
    set event | event in events :: event.transactionHash
  }

  /** The rows a batch of calls adds, one per call, in batch order. */
  function CallRows(calls: seq<ContractFunctionCall>): (rows: seq<LabelRow>)
    ensures |rows| == |calls|
    ensures forall i :: 0 <= i < |calls| ==> rows[i] == CallLabel(calls[i])
  {
    if calls == [] then [] else CallRows(calls[..|calls| - 1]) + [CallLabel(calls[|calls| - 1])]
  }

  /** The rows a batch of events adds, one per event, in batch order. */
  function EventRows(events: seq<Event>): (rows: seq<LabelRow>)
    ensures |rows| == |events|
    ensures forall i :: 0 <= i < |events| ==> rows[i] == EventLabel(events[i])
  {
    if events == [] then [] else EventRows(events[..|events| - 1]) + [EventLabel(events[|events| - 1])]
  }

  // ---------------------------------------------------------------------
  // The rows the writers delete

  /**
   * The existing-labels query of a writer: a "moonworm" row for `address`
   * whose hash is in the batch, with no log index for the call writer and
   * with one for the event writer.
   */
  predicate Replaced(row: LabelRow, kind: LabelKind, address: Address, hashes: set<Hash>)
  {
    && row.tag == MoonwormLabel
    && row.address == address
    && row.transactionHash in hashes
    && (if kind == CallLabels then row.logIndex.None? else row.logIndex.Some?)
  }

  /** The rows the existing-labels query returns, in table order. */
  function Existing(rows: seq<LabelRow>, kind: LabelKind, address: Address, hashes: set<Hash>): (r: seq<LabelRow>)
    ensures forall x :: x in r ==> x in rows && Replaced(x, kind, address, hashes)
  {
    if rows == [] then []
    else
      var last := rows[|rows| - 1];
      var r := Existing(rows[..|rows| - 1], kind, address, hashes);
      if Replaced(last, kind, address, hashes) then r + [last] else r
  }

  /** The rows a writer leaves in place, in table order. */
  function Survivors(rows: seq<LabelRow>, kind: LabelKind, address: Address, hashes: set<Hash>): (r: seq<LabelRow>)
    ensures forall x :: x in r ==> x in rows && !Replaced(x, kind, address, hashes)
  {
    if rows == [] then []
    else
      var last := rows[|rows| - 1];
      var r := Survivors(rows[..|rows| - 1], kind, address, hashes);
      if Replaced(last, kind, address, hashes) then r else r + [last]
  }

  /** The table after `session.delete(row)`: one row equal to `row` is gone, if any was there. */
  function RemoveOne(rows: seq<LabelRow>, row: LabelRow): seq<LabelRow>
  {
    if rows == [] then []
    else if rows[|rows| - 1] == row then rows[..|rows| - 1]
    else RemoveOne(rows[..|rows| - 1], row) + [rows[|rows| - 1]]
  }

  /** The table after deleting each of `deleted` in turn. */
  function RemoveEach(rows: seq<LabelRow>, deleted: seq<LabelRow>): seq<LabelRow>
  {
    if deleted == [] then rows
    else RemoveOne(RemoveEach(rows, deleted[..|deleted| - 1]), deleted[|deleted| - 1])
  }

  /** The table after the call writer has run on a batch and both commits succeeded. */
  function AfterCallLabels(rows: seq<LabelRow>, calls: seq<ContractFunctionCall>, address: Address): seq<LabelRow>
  {
    Survivors(rows, CallLabels, address, CallHashes(calls)) + CallRows(calls)
  }

  /** The table after the event writer has run on a batch and both commits succeeded. */
  function AfterEventLabels(rows: seq<LabelRow>, events: seq<Event>, address: Address): seq<LabelRow>
  {
    Survivors(rows, EventLabels, address, EventHashes(events)) + EventRows(events)
  }

  /**
   * The table after the persist step of a progressing cycle: the call
   * writer when the crawler registered calls, then the event writer when
   * events were fetched.
   */
  function Persist(rows: seq<LabelRow>, calls: seq<ContractFunctionCall>, events: seq<Event>, address: Address): seq<LabelRow>
  {
    var afterCalls := if calls != [] then AfterCallLabels(rows, calls, address) else rows;
    if events != [] then AfterEventLabels(afterCalls, events, address) else afterCalls
  }

  // ---------------------------------------------------------------------
  // The resume cursor

  /** A row this crawler wrote for `address` (either kind). */
  predicate CrawledBy(row: LabelRow, address: Address)
  {
    row.tag == MoonwormLabel && row.address == address
  }

  /** The highest block number among the "moonworm" rows for `address`; None when there is none. */
  function LastCrawledBlock(rows: seq<LabelRow>, address: Address): (r: Option<int>)
  {
    if rows == [] then None
    else
      var last := rows[|rows| - 1];
      var r := LastCrawledBlock(rows[..|rows| - 1], address);
      if !CrawledBy(last, address) then r
      else if r.Some? && r.value >= last.blockNumber then r
      else Some(last.blockNumber)
  }

  // ---------------------------------------------------------------------
  // The crawl loop's decisions

  datatype StartupError = StartBlockRequired

  /**
   * The block the crawl starts from: an explicit start block (raised to the
   * resume cursor unless forced), else the resume cursor, else the chain
   * head less twice the confirmation depth. Forcing without a start block
   * is refused.
   */
  function InitialCursor(startBlock: Option<int>, forceStart: bool, lastCrawled: Option<int>,
                         head: int, numConfirmations: int): (r: Result<int, StartupError>)
    ensures r.Err? <==> forceStart && startBlock.None?
    ensures r.Ok? && startBlock.Some? ==> r.value >= startBlock.value
    ensures r.Ok? && !forceStart && lastCrawled.Some? ==> r.value >= lastCrawled.value
  {
    if forceStart && startBlock.None? then Err(StartBlockRequired)
    else if startBlock.None? then
      if lastCrawled.Some? then Ok(lastCrawled.value) else Ok(head - numConfirmations * 2)
    else if !forceStart && lastCrawled.Some? && startBlock.value <= lastCrawled.value then
      Ok(lastCrawled.value)
    else Ok(startBlock.value)
  }

  /** The last block of a cycle's window: confirmed blocks only, at most six blocks. */
  function EndBlock(head: int, numConfirmations: int, cursor: int): (end: int)
    ensures end <= head - numConfirmations && end <= cursor + 5
    ensures end == head - numConfirmations || end == cursor + 5
  {
    if head - numConfirmations <= cursor + 5 then head - numConfirmations else cursor + 5
  }

  /**
   * Crawled windows laid end to end: the first starts at `start`, each
   * starts right after the previous one ends, and `cursor` follows the last.
   */
  ghost predicate Contiguous(windows: seq<(int, int)>, start: int, cursor: int)
  {
    if windows == [] then cursor == start
    else
      var last := windows[|windows| - 1];
      && last.0 <= last.1
      && last.1 + 1 == cursor
      && Contiguous(windows[..|windows| - 1], start, last.0)
  }
}

/**
 When is a successful fetch complete? The page loop follows the metadata and never compares the number
 of records it got with the count. Against any server whose metadata is consistent, but which may send
 fewer records than it says, the answer is exact: a success holds all counted records if and only if
 every page was full. */
module Completeness {
  import opened Core
  import opened DateRange
  import opened Pagination
  import opened Query
  import opened FetchAll

  // How many records the server counts for one date range.
  type Counts = DateRange -> int

  /** What a page of this metadata can hold: its size, or what is left from its offset on. */
  function Room(count: int, offset: int, page: Page): int {
    Min(page.metadata.limit, count - offset + 1)
  }

  /** The page echoes the offset asked for and the range's count, and sends no more than it has room for. */
  predicate CountedPage(count: int, offset: int, page: Page) {
    && page.metadata.offset >= 0 && Max(page.metadata.offset, 1) == offset
    && page.metadata.limit >= 1
    && page.metadata.count == count
    && |page.results| <= Room(count, offset, page)
  }

  function CountFor(counts: Counts, call: Exchange): int {
    counts(DateRange(call.request.startDate, call.request.endDate))
  }

  predicate Counted(counts: Counts, calls: seq<Exchange>) {
    forall i :: 0 <= i < |calls| ==>
      (calls[i].reply.Ok? ==> CountedPage(CountFor(counts, calls[i]), OffsetOf(calls[i].request), calls[i].reply.value))
  }

  predicate FullCall(counts: Counts, call: Exchange) {
    && call.reply.Ok?
    && |call.reply.value.results| == Room(CountFor(counts, call), OffsetOf(call.request), call.reply.value)
  }

  predicate AllFull(counts: Counts, calls: seq<Exchange>) {
    forall i :: 0 <= i < |calls| ==> FullCall(counts, calls[i])
  }

  lemma CallsSplit(counts: Counts, a: seq<Exchange>, b: seq<Exchange>)
    ensures Counted(counts, a + b) <==> Counted(counts, a) && Counted(counts, b)
    ensures AllFull(counts, a + b) <==> AllFull(counts, a) && AllFull(counts, b)
    ensures AllAnswered(a + b) <==> AllAnswered(a) && AllAnswered(b)
  {
    assert forall i :: 0 <= i < |a| ==> (a + b)[i] == a[i];
    assert forall i :: 0 <= i < |b| ==> (a + b)[|a| + i] == b[i];
    hide CountedPage, FullCall;
  }

  /** One page: where the loop goes from it, and what is then still to come. */
  lemma CountedStep(count: int, offset: Int32, page: Page)
    requires 1 <= offset && CountedPage(count, offset, page)
    ensures if HasMore(page) then
              && NextOffset(page) == offset + page.metadata.limit <= count
              && Room(count, offset, page) == page.metadata.limit
            else
              Room(count, offset, page) == count - offset + 1
    ensures GoesOn(Ok(page), offset) <==> HasMore(page) && page.results != []
    ensures !GoesOn(Ok(page), offset) ==> Ending(Ok(page), offset) == Ok(page.results)
  {
  }

  /**
   A chunk from `offset` on, against consistent metadata: it succeeds exactly when no call failed, never
   holds more than is counted, and holds all that is counted exactly when every page was full. */
  lemma {:induction false} ChunkIsComplete(server: Server, n: nat, p: GetDataParams, range: DateRange, offset: Int32,
                                           counts: Counts)
    requires 1 <= offset && Counted(counts, FetchChunk(server, n, p, range, offset).calls)
    ensures var run := FetchChunk(server, n, p, range, offset);
            && (run.result.Ok? <==> AllAnswered(run.calls))
            && (run.result.Ok? ==>
                  && |run.result.value| <= counts(range) - offset + 1
                  && (|run.result.value| == counts(range) - offset + 1 <==> AllFull(counts, run.calls)))
    decreases INT32_MAX - offset
  {
    var run := FetchChunk(server, n, p, range, offset);
    var request := PageRequest(p, range, offset);
    var reply := server(n, request);
    var call := Exchange(request, reply);
    assert run.calls[0] == call && CountFor(counts, call) == counts(range) && OffsetOf(request) == offset;
    if reply.Err? {
    } else {
      CountedStep(counts(range), offset, reply.value);
      hide CountedPage, HasMore, NextOffset;
      if GoesOn(reply, offset) {
        var rest := FetchChunk(server, n + 1, p, range, NextOffset(reply.value));
        assert run.calls == [call] + rest.calls;
        CallsSplit(counts, [call], rest.calls);
        ChunkIsComplete(server, n + 1, p, range, NextOffset(reply.value), counts);
      } else {
        assert run.calls == [call];
      }
    }
  }

  function TotalCount(counts: Counts, ranges: seq<DateRange>): int {
    if ranges == [] then 0 else counts(ranges[0]) + TotalCount(counts, ranges[1..])
  }

  /** All chunks: the same of the whole run, against the sum of the counts. */
  lemma {:induction false} RunIsComplete(server: Server, n: nat, p: GetDataParams, ranges: seq<DateRange>,
                                         counts: Counts)
    requires Counted(counts, FetchRanges(server, n, p, ranges).calls)
    ensures var run := FetchRanges(server, n, p, ranges);
            && (run.result.Ok? <==> AllAnswered(run.calls))
            && (run.result.Ok? ==>
                  && |run.result.value| <= TotalCount(counts, ranges)
                  && (|run.result.value| == TotalCount(counts, ranges) <==> AllFull(counts, run.calls)))
    decreases |ranges|
  {
    hide FetchChunk, Counted, AllFull, AllAnswered;
    if ranges == [] {
      NoCalls(counts);
    } else {
      var first := FetchChunk(server, n, p, ranges[0], 1);
      var rest := FetchRanges(server, n + |first.calls|, p, ranges[1..]);
      if first.result.Ok? {
        CallsSplit(counts, first.calls, rest.calls);
        RunIsComplete(server, n + |first.calls|, p, ranges[1..], counts);
      }
      ChunkIsComplete(server, n, p, ranges[0], 1, counts);
    }
  }

  lemma NoCalls(counts: Counts)
    ensures AllFull(counts, []) && AllAnswered([])
  {
  }

  /** Honest pages are counted and full. */
  lemma HonestPageIsFull(listing: seq<Record>, offset: int, page: Page)
    requires 1 <= offset
    ensures HonestPage(listing, offset, page) ==>
              CountedPage(|listing|, offset, page) && |page.results| == Room(|listing|, offset, page)
  {
  }

  // ----------------------------------------------------- incomplete successes

  /** A page that promises more but is empty: a thousand records counted, none fetched, and a success. */
  lemma EmptyPageEndsChunk(p: GetDataParams, range: DateRange)
    ensures var page := CDOResponse(ResultSetMetadata(1, 1000, 25), []);
            && HasMore<Record>(page) && CountedPage(1000, 1, page)
            && FetchChunk((n, request) => Ok(page), 0, p, range, 1)
               == Run(Ok([]), [Exchange(PageRequest(p, range, 1), Ok(page))])
  {
    assert !GoesOn(Ok(CDOResponse(ResultSetMetadata(1, 1000, 25), [])), 1);
  }

  /** A last page that is empty: five hundred records counted on a page of a thousand, none fetched. */
  lemma EmptyLastPage(p: GetDataParams, range: DateRange)
    ensures var page := CDOResponse(ResultSetMetadata(1, 500, 1000), []);
            && !HasMore<Record>(page) && CountedPage(500, 1, page)
            && FetchChunk((n, request) => Ok(page), 0, p, range, 1)
               == Run(Ok([]), [Exchange(PageRequest(p, range, 1), Ok(page))])
  {
    assert !GoesOn(Ok(CDOResponse(ResultSetMetadata(1, 500, 1000), [])), 1);
  }

  /** A short page in the middle: of thirty records counted one page sends 1 of 25, the next its 5. */
  lemma ShortPage(p: GetDataParams, range: DateRange, records: seq<Record>)
    requires |records| == 6
    ensures var first := CDOResponse(ResultSetMetadata(1, 30, 25), records[..1]);
            var second := CDOResponse(ResultSetMetadata(26, 30, 25), records[1..]);
            && CountedPage(30, 1, first) && CountedPage(30, 26, second)
            && FetchChunk((n, request) => Ok(if n == 0 then first else second), 0, p, range, 1).result == Ok(records)
  {
    var first := CDOResponse(ResultSetMetadata(1, 30, 25), records[..1]);
    var second := CDOResponse(ResultSetMetadata(26, 30, 25), records[1..]);
    var server := (n: nat, request: GetDataParams) => Ok(if n == 0 then first else second);
    assert GoesOn(Ok(first), 1) && NextOffset(first) == 26;
    assert !GoesOn(Ok(second), 26) && Ending(Ok(second), 26) == Ok(records[1..]);
    assert FetchChunk(server, 1, p, range, 26).result == Ok(records[1..]);
    assert FetchChunk(server, 0, p, range, 1).result == Ok(records[..1] + records[1..]);
    assert records[..1] + records[1..] == records;
  }
}

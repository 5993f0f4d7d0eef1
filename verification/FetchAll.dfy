/**
 What a `get_data_all` run does, as a function of the replies it receives
 (src/api/cdo_client.cpp:363-408), and what the run returns when the replies are honest. */
module FetchAll {
  import opened Core
  import opened Calendar
  import opened DateRange
  import opened Pagination
  import opened Query

  // A record: the day it is dated, and everything else it carries.
  datatype Record = Record(day: int, content: string)
  type Page = CDOResponse<Record>

  // An arbitrary server: the reply to the n-th request of a run.
  type Server = (nat, GetDataParams) -> Result<Page>

  const NO_ADVANCE := Error(ParseError, "CDO pagination did not advance")
  const MAX_CHUNK_DAYS := 365

  function What(e: DateError): string {
    match e
    case NotIsoShape => "Expected YYYY-MM-DD"
    case NotNumeric => "Expected numeric date fields"
    case ComponentRange => "Date components out of supported range"
    case NotInCalendar => "Invalid calendar date"
    case BadRangeOrChunk => "Invalid date range or negative chunk size"
    case YearOverflow => "Date arithmetic exceeded year 1..9999"
  }

  // One `get_data` call, and a whole run: what it returns and the calls it made.
  datatype Exchange = Exchange(request: GetDataParams, reply: Result<Page>)
  datatype Run = Run(result: Result<seq<Record>>, calls: seq<Exchange>)

  function PageRequest(p: GetDataParams, range: DateRange, offset: Int32): GetDataParams {
    p.(startDate := range.first, endDate := range.second, offset := Some(offset),
       limit := if p.limit.None? then Some(1000) else p.limit)
  }

  function Prepend(records: seq<Record>, rest: Result<seq<Record>>): Result<seq<Record>> {
    match rest case Ok(more) => Ok(records + more) case Err(e) => Err(e)
  }

  /** The loop goes on after a page with records that names a later offset. */
  predicate GoesOn(reply: Result<Page>, offset: int) {
    reply.Ok? && HasMore(reply.value) && reply.value.results != [] && NextOffset(reply.value) > offset
  }

  /** Otherwise the chunk ends: by the server's error, by the no-progress error, or with a last page. */
  function Ending(reply: Result<Page>, offset: int): Result<seq<Record>> {
    match reply
    case Err(e) => Err(e)
    case Ok(page) =>
      if HasMore(page) && NextOffset(page) <= offset then Err(NO_ADVANCE) else Ok(page.results)
  }

  /** The page loop on one chunk, from `offset` on; `n` calls were made before. */
  function FetchChunk(server: Server, n: nat, p: GetDataParams, range: DateRange, offset: Int32): (run: Run)
    ensures run.calls != []
    decreases INT32_MAX - offset
  {
    var request := PageRequest(p, range, offset);
    var reply := server(n, request);
    if GoesOn(reply, offset) then
      var rest := FetchChunk(server, n + 1, p, range, NextOffset(reply.value));
      Run(Prepend(reply.value.results, rest.result), [Exchange(request, reply)] + rest.calls)
    else
      Run(Ending(reply, offset), [Exchange(request, reply)])
  }

  /** The chunk loop. */
  function FetchRanges(server: Server, n: nat, p: GetDataParams, ranges: seq<DateRange>): Run
    decreases |ranges|
  {
    if ranges == [] then Run(Ok([]), [])
    else
      var first := FetchChunk(server, n, p, ranges[0], 1);
      match first.result
      case Err(e) => first
      case Ok(records) =>
        var rest := FetchRanges(server, n + |first.calls|, p, ranges[1..]);
        Run(Prepend(records, rest.result), first.calls + rest.calls)
  }

  function Fetch(server: Server, p: GetDataParams): Run {
    match Split(p.startDate, p.endDate, MAX_CHUNK_DAYS)
    case Bad(e) => Run(Err(Error(InvalidRequest, What(e))), [])
    case Good(ranges) => FetchRanges(server, 0, p, ranges)
  }

  // ------------------------------------------------------------- any server

  function OffsetOf(request: GetDataParams): Int32 {
    match request.offset case Some(o) => o case None => 0
  }

  /**
   Against any server, with any int32 metadata: the offsets asked for within a chunk start at
   `offset` and strictly increase, and each is the one the previous page named, never past the
   count that page gave. (Termination is the `decreases` clause of FetchChunk.) */
  lemma {:induction false} ChunkAdvances(server: Server, n: nat, p: GetDataParams, range: DateRange, offset: Int32,
                                         i: nat)
    requires i + 1 < |FetchChunk(server, n, p, range, offset).calls|
    ensures var calls := FetchChunk(server, n, p, range, offset).calls;
            && calls[0].request == PageRequest(p, range, offset)
            && GoesOn(calls[i].reply, OffsetOf(calls[i].request))
            && calls[i + 1].request == PageRequest(p, range, NextOffset(calls[i].reply.value))
            && OffsetOf(calls[i].request) < OffsetOf(calls[i + 1].request) <= calls[i].reply.value.metadata.count
    decreases i
  {
    var reply := server(n, PageRequest(p, range, offset));
    var calls := FetchChunk(server, n, p, range, offset).calls;
    var rest := FetchChunk(server, n + 1, p, range, NextOffset(reply.value)).calls;
    if i == 0 {
    } else {
      ChunkAdvances(server, n + 1, p, range, NextOffset(reply.value), i - 1);
      assert calls[i] == rest[i - 1] && calls[i + 1] == rest[i];
    }
  }

  /** Against any server a chunk ends by the server's error, the no-progress error or a last page. */
  lemma {:induction false} ChunkEnds(server: Server, n: nat, p: GetDataParams, range: DateRange, offset: Int32)
    ensures var run := FetchChunk(server, n, p, range, offset);
            var last := run.calls[|run.calls| - 1];
            && !GoesOn(last.reply, OffsetOf(last.request))
            && (run.result.Err? ==>
                  || run.result.error == Error(ParseError, "CDO pagination did not advance")
                  || last.reply == Err(run.result.error))
            && (run.result.Ok? <==>
                  && last.reply.Ok?
                  && !(HasMore(last.reply.value) && NextOffset(last.reply.value) <= OffsetOf(last.request)))
    decreases INT32_MAX - offset
  {
    var reply := server(n, PageRequest(p, range, offset));
    if !GoesOn(reply, offset) {
    } else {
      ChunkEnds(server, n + 1, p, range, NextOffset(reply.value));
      var calls := FetchChunk(server, n, p, range, offset).calls;
      var rest := FetchChunk(server, n + 1, p, range, NextOffset(reply.value)).calls;
      assert calls[|calls| - 1] == rest[|rest| - 1];
    }
  }

  /** The records of all replies, in the order they came. */
  function Gathered(calls: seq<Exchange>): seq<Record> {
    if calls == [] then []
    else (match calls[0].reply case Ok(page) => page.results case Err(_) => []) + Gathered(calls[1..])
  }

  lemma {:induction false} GatheredConcat(a: seq<Exchange>, b: seq<Exchange>)
    ensures Gathered(a + b) == Gathered(a) + Gathered(b)
  {
    GatheredUnfold(a);
    GatheredUnfold(a + b);
    hide Gathered;
    if a == [] {
      assert a + b == b;
    } else {
      assert (a + b)[1..] == a[1..] + b;
      GatheredConcat(a[1..], b);
      var x, y, z := if a[0].reply.Ok? then a[0].reply.value.results else [], Gathered(a[1..]), Gathered(b);
      assert x + (y + z) == x + y + z;
    }
  }

  lemma GatheredUnfold(calls: seq<Exchange>)
    ensures calls == [] ==> Gathered(calls) == []
    ensures calls != [] ==>
              Gathered(calls)
              == (if calls[0].reply.Ok? then calls[0].reply.value.results else []) + Gathered(calls[1..])
  {
  }

  /** A run that ended with this result after these calls, whatever the server was. */
  predicate Explained(result: Result<seq<Record>>, calls: seq<Exchange>) {
    match result
    case Ok(records) => AllAnswered(calls) && records == Gathered(calls)
    case Err(e) =>
      && calls != [] && AllAnswered(calls[..|calls| - 1])
      && var last := calls[|calls| - 1].reply;
         if last.Err? then last == Err(e)
         else
           && e == NO_ADVANCE
           && HasMore(last.value) && NextOffset(last.value) <= OffsetOf(calls[|calls| - 1].request)
  }

  lemma ExplainedAfter(first: seq<Exchange>, result: Result<seq<Record>>, calls: seq<Exchange>)
    requires AllAnswered(first) && Explained(result, calls)
    ensures Explained(Prepend(Gathered(first), result), first + calls)
  {
    hide AllAnswered, Gathered, HasMore, NextOffset, OffsetOf;
    GatheredConcat(first, calls);
    AnsweredConcat(first, calls);
    if result.Err? {
      AnsweredConcat(first, calls[..|calls| - 1]);
      assert (first + calls)[..|first + calls| - 1] == first + calls[..|calls| - 1];
    }
  }

  lemma AnsweredConcat(a: seq<Exchange>, b: seq<Exchange>)
    ensures AllAnswered(a + b) <==> AllAnswered(a) && AllAnswered(b)
  {
    assert forall i :: 0 <= i < |a| ==> (a + b)[i] == a[i];
    assert forall i :: 0 <= i < |b| ==> (a + b)[|a| + i] == b[i];
  }

  lemma {:induction false} ChunkExplained(server: Server, n: nat, p: GetDataParams, range: DateRange, offset: Int32)
    ensures var run := FetchChunk(server, n, p, range, offset); Explained(run.result, run.calls)
    decreases INT32_MAX - offset
  {
    var request := PageRequest(p, range, offset);
    var reply := server(n, request);
    var call := Exchange(request, reply);
    GatheredUnfold([call]);
    GatheredUnfold([]);
    assert [call][1..] == [];
    assert reply.Ok? ==> Gathered([call]) == reply.value.results;
    if !GoesOn(reply, offset) {
    } else {
      ChunkExplained(server, n + 1, p, range, NextOffset(reply.value));
      var rest := FetchChunk(server, n + 1, p, range, NextOffset(reply.value));
      ExplainedAfter([call], rest.result, rest.calls);
    }
  }

  /**
   Whatever the server does: on success the run returns all records of all replies in the order they
   came, and on failure exactly one call failed, the last, or the last page named no later offset. */
  lemma {:induction false} RunExplained(server: Server, n: nat, p: GetDataParams, ranges: seq<DateRange>)
    ensures var run := FetchRanges(server, n, p, ranges); Explained(run.result, run.calls)
    decreases |ranges|
  {
    hide FetchChunk;
    if ranges == [] {
    } else {
      var first := FetchChunk(server, n, p, ranges[0], 1);
      ChunkExplained(server, n, p, ranges[0], 1);
      if first.result.Ok? {
        var rest := FetchRanges(server, n + |first.calls|, p, ranges[1..]);
        RunExplained(server, n + |first.calls|, p, ranges[1..]);
        ExplainedAfter(first.calls, rest.result, rest.calls);
        assert AllAnswered(first.calls) && first.result.value == Gathered(first.calls);
        hide Gathered, AllAnswered;
      }
    }
  }

  /** The request asks for a page of the query on one of these ranges. */
  predicate AsksPage(p: GetDataParams, ranges: seq<DateRange>, request: GetDataParams) {
    var range := DateRange(request.startDate, request.endDate);
    && request.offset.Some? && request.offset.value >= 1 && range in ranges
    && request == p.(startDate := range.first, endDate := range.second, offset := request.offset,
                     limit := if p.limit.Some? then p.limit else Some(1000))
  }

  predicate AskPages(p: GetDataParams, ranges: seq<DateRange>, calls: seq<Exchange>) {
    forall i :: 0 <= i < |calls| ==> AsksPage(p, ranges, calls[i].request)
  }

  lemma {:induction false} ChunkRequests(server: Server, n: nat, p: GetDataParams, ranges: seq<DateRange>,
                                         range: DateRange, offset: Int32)
    requires range in ranges && offset >= 1
    ensures AskPages(p, ranges, FetchChunk(server, n, p, range, offset).calls)
    decreases INT32_MAX - offset
  {
    var reply := server(n, PageRequest(p, range, offset));
    ChunkUnfold(server, n, p, range, offset);
    hide FetchChunk;
    if !GoesOn(reply, offset) {
    } else {
      ChunkRequests(server, n + 1, p, ranges, range, NextOffset(reply.value));
    }
  }

  /** Every request of a run asks for a page of its query on one of its chunks. */
  lemma {:induction false} RunRequests(server: Server, n: nat, p: GetDataParams, ranges: seq<DateRange>)
    ensures AskPages(p, ranges, FetchRanges(server, n, p, ranges).calls)
    decreases |ranges|
  {
    hide FetchChunk, PageRequest;
    if ranges == [] {
    } else {
      var first := FetchChunk(server, n, p, ranges[0], 1);
      ChunkRequests(server, n, p, ranges, ranges[0], 1);
      RunRequests(server, n + |first.calls|, p, ranges[1..]);
      var run := FetchRanges(server, n, p, ranges);
      var rest := FetchRanges(server, n + |first.calls|, p, ranges[1..]);
      assert first.result.Err? ==> run == first;
      assert first.result.Ok? ==> run.calls == first.calls + rest.calls;
      assert AskPages(p, ranges, rest.calls);
    }
  }

  // ----------------------------------------------------------- honest pages

  // What the server holds for one date range, in the server's own order.
  type Listing = DateRange -> seq<Record>

  /**
   An honest page for `offset` of a listing: a page size of at least one, chosen freely and echoed,
   the exact count, and the records from `offset` on. The echoed offset may be 0 for the first page. */
  predicate HonestPage(listing: seq<Record>, offset: int, page: Page) {
    && page.metadata.offset >= 0 && Max(page.metadata.offset, 1) == offset
    && page.metadata.limit >= 1
    && page.metadata.count == |listing|
    && offset - 1 <= |listing|
    && page.results == listing[offset - 1..Min(offset - 1 + page.metadata.limit, |listing|)]
  }

  /**
   A reply is honest if it is an error, or the honest page for the offset asked, or if no such page exists:
   of requests without an offset, or with one before the first record or past the end, nothing is assumed. */
  predicate HonestCall(listing: Listing, call: Exchange) {
    var held := listing(DateRange(call.request.startDate, call.request.endDate));
    call.reply.Ok? && 1 <= OffsetOf(call.request) <= |held| + 1 ==>
      HonestPage(held, OffsetOf(call.request), call.reply.value)
  }

  /** Every reply is an error or the honest page for its request. */
  predicate Honest(listing: Listing, calls: seq<Exchange>) {
    forall i :: 0 <= i < |calls| ==> HonestCall(listing, calls[i])
  }

  predicate AllAnswered(calls: seq<Exchange>) {
    forall i :: 0 <= i < |calls| ==> calls[i].reply.Ok?
  }

  /** An honest page goes on exactly to the first record it does not hold. */
  lemma HonestPageStep(listing: seq<Record>, offset: Int32, page: Page)
    requires 1 <= offset && HonestPage(listing, offset, page)
    ensures if HasMore(page) then
              GoesOn(Ok(page), offset) && offset < NextOffset(page) <= |listing|
              && page.results == listing[offset - 1..NextOffset(page) - 1]
            else
              !GoesOn(Ok(page), offset) && Ending(Ok(page), offset) == Ok(listing[offset - 1..])
  {
    assert listing[offset - 1..|listing|] == listing[offset - 1..];
  }

  /** Against honest replies the pages of a chunk concatenate to what the server holds from `offset` on. */
  lemma {:induction false} HonestChunk(server: Server, n: nat, p: GetDataParams, range: DateRange, offset: Int32,
                                       listing: Listing)
    requires 1 <= offset <= |listing(range)| + 1
    requires Honest(listing, FetchChunk(server, n, p, range, offset).calls)
    ensures var run := FetchChunk(server, n, p, range, offset);
            && (run.result.Ok? ==> run.result.value == listing(range)[offset - 1..])
            && (run.result.Ok? <==> AllAnswered(run.calls))
    decreases INT32_MAX - offset
  {
    var held, request := listing(range), PageRequest(p, range, offset);
    var reply := server(n, request);
    var call := Exchange(request, reply);
    hide FetchChunk, Honest, AllAnswered, HonestPage, GoesOn, Ending, HasMore, NextOffset;
    ChunkUnfold(server, n, p, range, offset);
    OneHonestCall(listing, call);
    if reply.Err? {
      ErrorEnds(reply.error, offset);
    } else if !GoesOn(reply, offset) {
      HonestPageStep(held, offset, reply.value);
    } else {
      var next := NextOffset(reply.value);
      var rest := FetchChunk(server, n + 1, p, range, next);
      HonestConcat(listing, [call], rest.calls);
      HonestPageStep(held, offset, reply.value);
      HonestChunk(server, n + 1, p, range, next, listing);
      assert held[offset - 1..next - 1] + held[next - 1..] == held[offset - 1..];
    }
  }

  lemma ChunkUnfold(server: Server, n: nat, p: GetDataParams, range: DateRange, offset: Int32)
    ensures var request := PageRequest(p, range, offset);
            var reply := server(n, request);
            var run, call := FetchChunk(server, n, p, range, offset), Exchange(request, reply);
            if GoesOn(reply, offset) then
              var rest := FetchChunk(server, n + 1, p, range, NextOffset(reply.value));
              run == Run(Prepend(reply.value.results, rest.result), [call] + rest.calls)
            else
              run == Run(Ending(reply, offset), [call])
  {
  }

  lemma ErrorEnds(e: Error, offset: int)
    ensures !GoesOn(Err(e), offset) && Ending(Err(e), offset) == Err(e)
  {
  }

  lemma OneHonestCall(listing: Listing, call: Exchange)
    ensures Honest(listing, [call]) <==> HonestCall(listing, call)
    ensures AllAnswered([call]) <==> call.reply.Ok?
  {
    hide HonestCall;
    assert [call][0] == call;
  }

  predicate PagesOf(calls: seq<Exchange>, size: int) {
    forall i :: 0 <= i < |calls| ==> calls[i].reply.Ok? && calls[i].reply.value.metadata.limit == size
  }

  /** So many calls of `size` records each are enough for `left` records, and one less is not. */
  predicate LeastCalls(calls: int, left: int, size: int) {
    (calls - 1) * size < Max(left, 1) <= calls * size
  }

  lemma OneCall(left: int, size: int)
    requires size >= 1 && left <= size
    ensures LeastCalls(1, left, size)
  {
  }

  lemma OneCallMore(calls: int, left: int, size: int)
    requires left >= 1 && LeastCalls(calls, left, size)
    ensures LeastCalls(calls + 1, left + size, size)
  {
    assert (calls + 1) * size == calls * size + size && calls * size == (calls - 1) * size + size;
  }

  /** With one page size throughout, a chunk takes the least number of calls that holds its records. */
  lemma {:induction false} HonestCallCount(server: Server, n: nat, p: GetDataParams, range: DateRange, offset: Int32,
                                           listing: Listing, size: Int32)
    requires size >= 1 && 1 <= offset <= |listing(range)| + 1
    requires Honest(listing, FetchChunk(server, n, p, range, offset).calls)
    requires PagesOf(FetchChunk(server, n, p, range, offset).calls, size)
    ensures LeastCalls(|FetchChunk(server, n, p, range, offset).calls|, |listing(range)| - offset + 1, size)
    decreases INT32_MAX - offset
  {
    hide LeastCalls, FetchChunk, Honest, PagesOf;
    FirstCall(server, n, p, range, offset, listing, size);
    var left := |listing(range)| - offset + 1;
    if left > size {
      HonestCallCount(server, n + 1, p, range, offset + size, listing, size);
      OneCallMore(|FetchChunk(server, n + 1, p, range, offset + size).calls|, left - size, size);
    } else {
      OneCall(left, size);
    }
  }

  /** The first call of a chunk brings `size` records and leads to the next ones, or it is the only one. */
  lemma FirstCall(server: Server, n: nat, p: GetDataParams, range: DateRange, offset: Int32, listing: Listing,
                  size: Int32)
    requires size >= 1 && 1 <= offset <= |listing(range)| + 1
    requires Honest(listing, FetchChunk(server, n, p, range, offset).calls)
    requires PagesOf(FetchChunk(server, n, p, range, offset).calls, size)
    ensures var calls := FetchChunk(server, n, p, range, offset).calls;
            if |listing(range)| - offset + 1 <= size then |calls| == 1
            else
              offset + size <= INT32_MAX
              && var rest := FetchChunk(server, n + 1, p, range, offset + size).calls;
                 |calls| == |rest| + 1 && Honest(listing, rest) && PagesOf(rest, size)
  {
    var run := FetchChunk(server, n, p, range, offset);
    var reply := server(n, PageRequest(p, range, offset));
    assert HonestCall(listing, run.calls[0]) && run.calls[0].reply.value.metadata.limit == size;
    HonestPageStep(listing(range), offset, reply.value);
    assert HasMore(reply.value) <==> offset + size <= |listing(range)|;
    assert HasMore(reply.value) ==> NextOffset(reply.value) == offset + size;
    hide HonestPage, HasMore, NextOffset;
    if HasMore(reply.value) {
      var rest := FetchChunk(server, n + 1, p, range, offset + size);
      assert run.calls[1..] == rest.calls;
      assert forall i :: 0 <= i < |rest.calls| ==> rest.calls[i] == run.calls[i + 1];
      hide FetchChunk, HonestCall;
    }
  }

  // ------------------------------------------------- all chunks, one store

  function Concat(listing: Listing, ranges: seq<DateRange>): seq<Record> {
    if ranges == [] then [] else listing(ranges[0]) + Concat(listing, ranges[1..])
  }

  /** Against honest replies the run is the chunks' listings in order, or the error of a failed call. */
  lemma {:induction false} HonestRanges(server: Server, n: nat, p: GetDataParams, ranges: seq<DateRange>,
                                        listing: Listing)
    requires Honest(listing, FetchRanges(server, n, p, ranges).calls)
    ensures var run := FetchRanges(server, n, p, ranges);
            && (run.result.Ok? ==> run.result.value == Concat(listing, ranges))
            && (run.result.Ok? <==> AllAnswered(run.calls))
    decreases |ranges|
  {
    hide FetchChunk, FetchRanges, Concat, Honest, AllAnswered;
    RangesUnfold(server, n, p, ranges, listing);
    if ranges == [] {
    } else {
      var first := FetchChunk(server, n, p, ranges[0], 1);
      var rest := FetchRanges(server, n + |first.calls|, p, ranges[1..]);
      if first.result.Ok? {
        HonestConcat(listing, first.calls, rest.calls);
        HonestRanges(server, n + |first.calls|, p, ranges[1..], listing);
      }
      HonestChunk(server, n, p, ranges[0], 1, listing);
    }
  }

  lemma RangesUnfold(server: Server, n: nat, p: GetDataParams, ranges: seq<DateRange>, listing: Listing)
    ensures ranges == [] ==> FetchRanges(server, n, p, ranges) == Run(Ok([]), []) && Concat(listing, ranges) == []
    ensures ranges != [] ==>
              var first := FetchChunk(server, n, p, ranges[0], 1);
              var rest := FetchRanges(server, n + |first.calls|, p, ranges[1..]);
              && FetchRanges(server, n, p, ranges)
                 == (if first.result.Err? then first
                     else Run(Prepend(first.result.value, rest.result), first.calls + rest.calls))
              && Concat(listing, ranges) == listing(ranges[0]) + Concat(listing, ranges[1..])
    ensures AllAnswered([])
  {
  }

  lemma HonestConcat(listing: Listing, a: seq<Exchange>, b: seq<Exchange>)
    ensures Honest(listing, a + b) <==> Honest(listing, a) && Honest(listing, b)
    ensures AllAnswered(a + b) <==> AllAnswered(a) && AllAnswered(b)
  {
    AnsweredConcat(a, b);
    hide HonestCall, AllAnswered;
    assert forall i :: 0 <= i < |a| ==> (a + b)[i] == a[i];
    assert forall i :: 0 <= i < |b| ==> (a + b)[|a| + i] == b[i];
  }

  /** The one-shot query: the records of the store dated lo..hi, in the order of the store. */
  function Within(store: seq<Record>, lo: int, hi: int): seq<Record> {
    if store == [] then []
    else (if lo <= store[0].day <= hi then [store[0]] else []) + Within(store[1..], lo, hi)
  }

  predicate DateOrdered(records: seq<Record>) {
    forall i, j :: 0 <= i < j < |records| ==> records[i].day <= records[j].day
  }

  predicate Dated(records: seq<Record>, lo: int, hi: int) {
    forall i :: 0 <= i < |records| ==> lo <= records[i].day <= hi
  }

  lemma {:induction false} WithinIsDated(store: seq<Record>, lo: int, hi: int)
    ensures Dated(Within(store, lo, hi), lo, hi)
  {
    if store == [] {
    } else {
      WithinIsDated(store[1..], lo, hi);
    }
  }

  /** Cutting a date range in two divides the records between the halves: none lost, none doubled. */
  lemma {:induction false} WithinSplits(store: seq<Record>, lo: int, mid: int, hi: int)
    requires lo <= mid + 1 && mid <= hi
    ensures multiset(Within(store, lo, hi)) == multiset(Within(store, lo, mid)) + multiset(Within(store, mid + 1, hi))
  {
    if store == [] {
    } else {
      WithinSplits(store[1..], lo, mid, hi);
    }
  }

  lemma {:induction false} WithinSplitsInOrder(store: seq<Record>, lo: int, mid: int, hi: int)
    requires lo <= mid + 1 && mid <= hi && DateOrdered(store)
    ensures Within(store, lo, hi) == Within(store, lo, mid) + Within(store, mid + 1, hi)
  {
    hide Within;
    if store == [] {
      NothingDated(store, lo, hi);
      NothingDated(store, lo, mid);
      NothingDated(store, mid + 1, hi);
    } else {
      var tail := store[1..];
      WithinUnfold(store, lo, hi);
      WithinUnfold(store, lo, mid);
      WithinUnfold(store, mid + 1, hi);
      WithinSplitsInOrder(tail, lo, mid, hi);
      if mid < store[0].day {
        NothingDated(tail, lo, mid);
      }
      var y, z := Within(tail, lo, mid), Within(tail, mid + 1, hi);
      assert [store[0]] + y + z == [store[0]] + (y + z);
      assert [] + y == y;
    }
  }

  lemma WithinUnfold(store: seq<Record>, lo: int, hi: int)
    requires store != []
    ensures Within(store, lo, hi)
            == (if lo <= store[0].day <= hi then [store[0]] else []) + Within(store[1..], lo, hi)
  {
  }

  lemma {:induction false} NothingDated(store: seq<Record>, lo: int, hi: int)
    requires forall i :: 0 <= i < |store| ==> hi < store[i].day || store[i].day < lo
    ensures Within(store, lo, hi) == []
  {
    if store == [] {
    } else {
      NothingDated(store[1..], lo, hi);
    }
  }

  /** On these ranges the server answers from one fixed store, in whatever order it likes. */
  ghost predicate Faithful(listing: Listing, store: seq<Record>, ranges: seq<DateRange>) {
    forall r: DateRange {:trigger listing(r)} ::
      r in ranges && ParseDate(r.first).Good? && ParseDate(r.second).Good? ==>
        multiset(listing(r)) == multiset(Within(store, DayOf(r.first), DayOf(r.second)))
  }

  /** On these ranges it even answers in the order of the store. */
  ghost predicate InOrder(listing: Listing, store: seq<Record>, ranges: seq<DateRange>) {
    forall r: DateRange {:trigger listing(r)} ::
      r in ranges && ParseDate(r.first).Good? && ParseDate(r.second).Good? ==>
        listing(r) == Within(store, DayOf(r.first), DayOf(r.second))
  }

  /** On each of these ranges it answers in date order. */
  ghost predicate InDateOrder(listing: Listing, ranges: seq<DateRange>) {
    forall r: DateRange {:trigger listing(r)} :: r in ranges ==> DateOrdered(listing(r))
  }

  lemma SameDays(a: seq<Record>, b: seq<Record>, lo: int, hi: int)
    requires multiset(a) == multiset(b) && Dated(b, lo, hi)
    ensures Dated(a, lo, hi)
  {
    forall k | 0 <= k < |a|
      ensures lo <= a[k].day <= hi
    {
      assert a[k] in multiset(a);
      assert a[k] in b;
    }
  }

  /** The listings of ranges that tile lo..hi hold together exactly the store's records of lo..hi. */
  lemma {:induction false} TilesConserve(listing: Listing, store: seq<Record>, ranges: seq<DateRange>, lo: int, hi: int)
    requires Tiles(ranges, lo, hi) && Faithful(listing, store, ranges)
    ensures multiset(Concat(listing, ranges)) == multiset(Within(store, lo, hi))
  {
    hide Within, ParseDate, DayOf;
    if ranges == [] {
      NothingDated(store, lo, hi);
    } else {
      var next := DayOf(ranges[0].second) + 1;
      var head, tail := listing(ranges[0]), Concat(listing, ranges[1..]);
      TilesConserve(listing, store, ranges[1..], next, hi);
      WithinSplits(store, lo, next - 1, hi);
      assert multiset(head) == multiset(Within(store, lo, next - 1));
      assert multiset(head + tail) == multiset(head) + multiset(tail);
    }
  }

  /** If each listing is in date order, so is their concatenation. */
  lemma {:induction false} TilesOrdered(listing: Listing, store: seq<Record>, ranges: seq<DateRange>, lo: int, hi: int)
    requires Tiles(ranges, lo, hi) && Faithful(listing, store, ranges)
    requires InDateOrder(listing, ranges)
    ensures DateOrdered(Concat(listing, ranges)) && Dated(Concat(listing, ranges), lo, hi)
  {
    if ranges == [] {
    } else {
      var to := DayOf(ranges[0].second);
      var head, tail := listing(ranges[0]), Concat(listing, ranges[1..]);
      TilesOrdered(listing, store, ranges[1..], to + 1, hi);
      hide Within, ParseDate, DayOf, DateOrdered, Dated;
      WithinIsDated(store, lo, to);
      SameDays(head, Within(store, lo, to), lo, to);
      OrderedConcat(head, tail, lo, to, hi);
    }
  }

  lemma OrderedConcat(a: seq<Record>, b: seq<Record>, lo: int, to: int, hi: int)
    requires lo <= to <= hi
    requires DateOrdered(a) && DateOrdered(b) && Dated(a, lo, to) && Dated(b, to + 1, hi)
    ensures DateOrdered(a + b) && Dated(a + b, lo, hi)
  {
  }

  /** If each listing is the ordered store's own records, so is the concatenation, as a sequence. */
  lemma {:induction false} TilesInOrder(listing: Listing, store: seq<Record>, ranges: seq<DateRange>, lo: int, hi: int)
    requires Tiles(ranges, lo, hi) && DateOrdered(store) && InOrder(listing, store, ranges)
    ensures Concat(listing, ranges) == Within(store, lo, hi)
  {
    hide Within, ParseDate, DayOf, DateOrdered;
    if ranges == [] {
      NothingDated(store, lo, hi);
    } else {
      var next := DayOf(ranges[0].second) + 1;
      TilesInOrder(listing, store, ranges[1..], next, hi);
      WithinSplitsInOrder(store, lo, next - 1, hi);
      assert listing(ranges[0]) == Within(store, lo, next - 1);
    }
  }

  // ------------------------------------------------------------ the headline

  /** The chunks of a query's dates; none if the dates are refused. */
  function ChunksOf(p: GetDataParams): seq<DateRange> {
    match Split(p.startDate, p.endDate, MAX_CHUNK_DAYS)
    case Good(ranges) => ranges
    case Bad(_) => []
  }

  /** A chunk spans a difference of 365 days: 366 dates. */
  lemma ChunksAre(p: GetDataParams)
    ensures Splits(p) <==> Split(p.startDate, p.endDate, 365).Good?
    ensures Splits(p) ==> ChunksOf(p) == Split(p.startDate, p.endDate, 365).value
    ensures Splits(p) ==>
              forall i {:trigger ChunksOf(p)[i]} :: 0 <= i < |ChunksOf(p)| - 1 ==>
                DaysBetween(ChunksOf(p)[i].first, ChunksOf(p)[i].second) == Good(365)
  {
    if Splits(p) {
      SplitIsPartition(p.startDate, p.endDate, 365);
    }
  }

  /** Refused dates end the fetch before any request, with the text of the exception. */
  lemma RefusedDates(server: Server, p: GetDataParams)
    ensures var e := Split(p.startDate, p.endDate, 365);
            e.Bad? ==>
              && Fetch(server, p).calls == [] && Fetch(server, p).result.Err?
              && Fetch(server, p).result.error.code == InvalidRequest
              && var text := Fetch(server, p).result.error.message;
                 && (e.error == NotIsoShape ==> text == "Expected YYYY-MM-DD")
                 && (e.error == NotNumeric ==> text == "Expected numeric date fields")
                 && (e.error == ComponentRange ==> text == "Date components out of supported range")
                 && (e.error == NotInCalendar ==> text == "Invalid calendar date")
                 && (e.error == BadRangeOrChunk ==> text == "Invalid date range or negative chunk size")
  {
    hide Split;
  }

  predicate Splits(p: GetDataParams) {
    Split(p.startDate, p.endDate, MAX_CHUNK_DAYS).Good?
  }

  lemma FetchOfChunks(server: Server, p: GetDataParams)
    requires Splits(p)
    ensures Fetch(server, p) == FetchRanges(server, 0, p, ChunksOf(p))
    ensures ParseDate(p.startDate).Good? && ParseDate(p.endDate).Good?
    ensures Tiles(ChunksOf(p), DayOf(p.startDate), DayOf(p.endDate))
  {
    SplitTiles(p.startDate, p.endDate, MAX_CHUNK_DAYS);
    hide Split, FetchRanges, Tiles, ParseDate, DayOf;
  }

  /**
   Fetch-all refines the one-shot query. Take any server that answers the calls of the run with an error or
   with the honest page, whatever page sizes it chooses, from one fixed store: the run succeeds exactly
   when no call failed, and then it returns the chunks' listings in order, which together are the
   store's records dated start..end, each exactly as often as the store has it. */
  lemma FetchAllExact(server: Server, p: GetDataParams, listing: Listing, store: seq<Record>)
    requires Splits(p) && Faithful(listing, store, ChunksOf(p))
    requires Honest(listing, Fetch(server, p).calls)
    ensures var run := Fetch(server, p);
            && (run.result.Ok? <==> AllAnswered(run.calls))
            && (run.result.Ok? ==>
                  && run.result.value == Concat(listing, ChunksOf(p))
                  && ParseDate(p.startDate).Good? && ParseDate(p.endDate).Good?
                  && multiset(run.result.value) == multiset(Within(store, DayOf(p.startDate), DayOf(p.endDate))))
    ensures Fetch(server, p).result.Ok? && InDateOrder(listing, ChunksOf(p)) ==>
              DateOrdered(Fetch(server, p).result.value)
  {
    FetchOfChunks(server, p);
    hide DayOf, ParseDate, ChunksOf, Splits, Split, Tiles, Faithful, InDateOrder, Honest, Within, Concat, FetchRanges,
         DateOrdered, Fetch;
    var ranges := ChunksOf(p);
    HonestRanges(server, 0, p, ranges, listing);
    TilesConserve(listing, store, ranges, DayOf(p.startDate), DayOf(p.endDate));
    if InDateOrder(listing, ranges) {
      TilesOrdered(listing, store, ranges, DayOf(p.startDate), DayOf(p.endDate));
    }
  }

  /**
   When the store is in date order and every chunk is listed in that order, the result is the very
   sequence of its records dated start..end: what the one-shot query returns if it is listed so too. */
  lemma FetchAllIsOneShot(server: Server, p: GetDataParams, listing: Listing, store: seq<Record>)
    requires Splits(p) && DateOrdered(store) && InOrder(listing, store, ChunksOf(p))
    requires Honest(listing, Fetch(server, p).calls)
    ensures Fetch(server, p).result.Ok? ==>
              && ParseDate(p.startDate).Good? && ParseDate(p.endDate).Good?
              && Fetch(server, p).result.value == Within(store, DayOf(p.startDate), DayOf(p.endDate))
    ensures Fetch(server, p).result.Ok? && InOrder(listing, store, [DateRange(p.startDate, p.endDate)]) ==>
              Fetch(server, p).result.value == listing(DateRange(p.startDate, p.endDate))
  {
    FetchOfChunks(server, p);
    OneShot(p, listing, store);
    hide DayOf, ParseDate, ChunksOf, Splits, Split, Tiles, InOrder, Honest, Within, Concat, FetchRanges, DateOrdered,
         Fetch;
    HonestRanges(server, 0, p, ChunksOf(p), listing);
    TilesInOrder(listing, store, ChunksOf(p), DayOf(p.startDate), DayOf(p.endDate));
  }

  lemma OneShot(p: GetDataParams, listing: Listing, store: seq<Record>)
    requires ParseDate(p.startDate).Good? && ParseDate(p.endDate).Good?
    ensures InOrder(listing, store, [DateRange(p.startDate, p.endDate)]) ==>
              listing(DateRange(p.startDate, p.endDate)) == Within(store, DayOf(p.startDate), DayOf(p.endDate))
  {
    hide ParseDate, DayOf, Within;
  }
}

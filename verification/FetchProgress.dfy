/**
 The loops of `get_data_all` half way: what remains to be fetched, as a function of the replies
 still to come. Used to show that the loops compute `Fetch` of the replies they received. */
module FetchProgress {
  import opened Core
  import opened DateRange
  import opened Pagination
  import opened Query
  import opened FetchAll

  /** A server that gives the replies received in `calls`, and any others afterwards. */
  ghost predicate Agrees(server: Server, calls: seq<Exchange>) {
    forall i :: 0 <= i < |calls| ==> server(i, calls[i].request) == calls[i].reply
  }

  /** A run that starts with the records and calls already made and ends like `rest`. */
  function After(records: seq<Record>, calls: seq<Exchange>, rest: Run): Run {
    Run(Prepend(records, rest.result), calls + rest.calls)
  }

  /** The chunk in progress from `offset` on, then the chunks after it. */
  function FetchFrom(server: Server, n: nat, p: GetDataParams, range: DateRange, offset: Int32,
                     later: seq<DateRange>): Run {
    var first := FetchChunk(server, n, p, range, offset);
    match first.result
    case Err(e) => first
    case Ok(records) => After(records, first.calls, FetchRanges(server, n + |first.calls|, p, later))
  }

  /** Between two chunks: what is to come is a run over the remaining ranges. */
  ghost predicate AtRanges(p: GetDataParams, ranges: seq<DateRange>, todo: seq<DateRange>, records: seq<Record>,
                           calls: seq<Exchange>) {
    forall server: Server {:trigger Agrees(server, calls)} :: Agrees(server, calls) ==>
      FetchRanges(server, 0, p, ranges) == After(records, calls, FetchRanges(server, |calls|, p, todo))
  }

  /** Inside a chunk: what is to come is the rest of the chunk and then the remaining ranges. */
  ghost predicate AtPage(p: GetDataParams, ranges: seq<DateRange>, range: DateRange, offset: Int32,
                         later: seq<DateRange>,
                         records: seq<Record>, calls: seq<Exchange>) {
    forall server: Server {:trigger Agrees(server, calls)} :: Agrees(server, calls) ==>
      FetchRanges(server, 0, p, ranges) == After(records, calls, FetchFrom(server, |calls|, p, range, offset, later))
  }

  lemma AfterNothing(rest: Run)
    ensures After([], [], rest) == rest
  {
    assert [] + rest.calls == rest.calls;
    if rest.result.Ok? {
      assert [] + rest.result.value == rest.result.value;
    }
  }

  lemma AfterAfter(a: seq<Record>, x: seq<Exchange>, b: seq<Record>, y: seq<Exchange>, rest: Run)
    ensures After(a, x, After(b, y, rest)) == After(a + b, x + y, rest)
  {
    assert x + (y + rest.calls) == x + y + rest.calls;
    if rest.result.Ok? {
      assert a + (b + rest.result.value) == a + b + rest.result.value;
    }
  }

  lemma Start(p: GetDataParams, ranges: seq<DateRange>)
    ensures AtRanges(p, ranges, ranges, [], [])
  {
    forall server: Server
      ensures FetchRanges(server, 0, p, ranges) == After([], [], FetchRanges(server, 0, p, ranges))
    {
      AfterNothing(FetchRanges(server, 0, p, ranges));
    }
  }

  /** Entering a chunk starts it at offset one. */
  lemma EnterChunk(p: GetDataParams, ranges: seq<DateRange>, todo: seq<DateRange>, records: seq<Record>,
                   calls: seq<Exchange>)
    requires todo != [] && AtRanges(p, ranges, todo, records, calls)
    ensures AtPage(p, ranges, todo[0], 1, todo[1..], records, calls)
  {
  }

  lemma AgreesWithPrefix(server: Server, calls: seq<Exchange>, call: Exchange)
    requires Agrees(server, calls + [call])
    ensures Agrees(server, calls) && server(|calls|, call.request) == call.reply
  {
    assert (calls + [call])[|calls|] == call;
    assert forall i :: 0 <= i < |calls| ==> (calls + [call])[i] == calls[i];
  }

  /** A page after which the loop goes on. */
  lemma NextPage(p: GetDataParams, ranges: seq<DateRange>, range: DateRange, offset: Int32, later: seq<DateRange>,
                 records: seq<Record>, calls: seq<Exchange>, reply: Result<Page>)
    requires AtPage(p, ranges, range, offset, later, records, calls) && GoesOn(reply, offset)
    ensures AtPage(p, ranges, range, NextOffset(reply.value), later,
                   records + reply.value.results, calls + [Exchange(PageRequest(p, range, offset), reply)])
  {
    var call, next := Exchange(PageRequest(p, range, offset), reply), NextOffset(reply.value);
    forall server: Server | Agrees(server, calls + [call])
      ensures FetchRanges(server, 0, p, ranges)
              == After(records + reply.value.results, calls + [call],
                       FetchFrom(server, |calls| + 1, p, range, next, later))
    {
      AgreesWithPrefix(server, calls, call);
      PageUnfolds(server, |calls|, p, range, offset, later, reply);
      AfterAfter(records, calls, reply.value.results, [call], FetchFrom(server, |calls| + 1, p, range, next, later));
    }
  }

  lemma PageUnfolds(server: Server, n: nat, p: GetDataParams, range: DateRange, offset: Int32, later: seq<DateRange>,
                    reply: Result<Page>)
    requires server(n, PageRequest(p, range, offset)) == reply
    ensures var call := Exchange(PageRequest(p, range, offset), reply);
            if GoesOn(reply, offset) then
              FetchFrom(server, n, p, range, offset, later)
              == After(reply.value.results, [call], FetchFrom(server, n + 1, p, range, NextOffset(reply.value), later))
            else
              FetchFrom(server, n, p, range, offset, later)
              == if Ending(reply, offset).Err? then Run(Ending(reply, offset), [call])
                 else After(Ending(reply, offset).value, [call], FetchRanges(server, n + 1, p, later))
  {
    var call := Exchange(PageRequest(p, range, offset), reply);
    if GoesOn(reply, offset) {
      var rest := FetchChunk(server, n + 1, p, range, NextOffset(reply.value));
      var first := FetchChunk(server, n, p, range, offset);
      assert first == After(reply.value.results, [call], rest);
      hide FetchChunk, FetchRanges;
      if rest.result.Ok? {
        assert n + |first.calls| == n + 1 + |rest.calls|;
        AfterAfter(reply.value.results, [call], rest.result.value, rest.calls,
                   FetchRanges(server, n + |first.calls|, p, later));
      }
    }
  }

  /** The last page of a chunk, or the end of the run by an error. */
  lemma EndChunk(p: GetDataParams, ranges: seq<DateRange>, range: DateRange, offset: Int32, later: seq<DateRange>,
                 records: seq<Record>, calls: seq<Exchange>, reply: Result<Page>)
    requires AtPage(p, ranges, range, offset, later, records, calls) && !GoesOn(reply, offset)
    ensures var calls' := calls + [Exchange(PageRequest(p, range, offset), reply)];
            if Ending(reply, offset).Ok? then AtRanges(p, ranges, later, records + Ending(reply, offset).value, calls')
            else
              forall server: Server {:trigger Agrees(server, calls')} :: Agrees(server, calls') ==>
                FetchRanges(server, 0, p, ranges) == Run(Ending(reply, offset), calls')
  {
    var call := Exchange(PageRequest(p, range, offset), reply);
    var calls' := calls + [call];
    var ending := Ending(reply, offset);
    forall server: Server | Agrees(server, calls')
      ensures FetchRanges(server, 0, p, ranges)
              == if ending.Ok? then After(records + ending.value, calls', FetchRanges(server, |calls'|, p, later))
                 else Run(ending, calls')
    {
      AgreesWithPrefix(server, calls, call);
      PageUnfolds(server, |calls|, p, range, offset, later, reply);
      if ending.Ok? {
        AfterAfter(records, calls, ending.value, [call], FetchRanges(server, |calls'|, p, later));
      }
    }
  }

  /** No range is left: the run is what was collected. */
  lemma Finish(p: GetDataParams, ranges: seq<DateRange>, records: seq<Record>, calls: seq<Exchange>, server: Server)
    requires AtRanges(p, ranges, [], records, calls) && Agrees(server, calls)
    ensures FetchRanges(server, 0, p, ranges) == Run(Ok(records), calls)
  {
    assert calls + [] == calls && records + [] == records;
  }

  /** The server that replays the calls of a finished run. */
  function Replay(calls: seq<Exchange>): Server {
    (n: nat, request: GetDataParams) => if n < |calls| then calls[n].reply else Err(NO_ADVANCE)
  }

  lemma ReplayAgrees(calls: seq<Exchange>)
    ensures Agrees(Replay(calls), calls)
  {
  }
}

/** The parts together: URL printer, server, pages, chunks, retries and limiter in one statement each. */
module EndToEnd {
  import opened Core
  import opened Environment
  import opened Calendar
  import opened TokenBucket
  import opened Pacing
  import Retry
  import opened DateRange
  import opened Query
  import opened QueryInverse
  import opened FetchAll
  import opened FetchProgress
  import opened PagedStore
  import opened Client

  /**
   A server that is honest on the wire, from its `from`-th to its `to`-th request, about the pages of one
   query: it reads the request from the URL, decoding it, and if that asks for a page of one of the query's
   chunks, and the answer is a success, the body holds the honest page of its listing. Of any other query,
   range or limit, and of requests without an offset, nothing is assumed. */
  ghost predicate HonestFor(server: (nat, Bytes) -> Outcome, d: Decoder, from: nat, to: nat,
                            p: GetDataParams, listing: Listing) {
    forall k: nat, url: Bytes {:trigger server(k, url)} ::
      from <= k < to && AsksPage(NormalData(p), ChunksOf(p), ReadDataQuery(url)) ==>
        HonestCall(listing, Exchange(ReadDataQuery(url), Interpret(d, server(k, url))))
  }

  /** A success is an answer of the server to the request's URL, in that stretch of requests. */
  ghost predicate FromWeb(server: (nat, Bytes) -> Outcome, d: Decoder, from: nat, to: nat, call: Exchange) {
    call.reply.Ok? ==>
      exists k: nat {:trigger server(k, DataUrl(call.request))} ::
        from <= k < to && Interpret(d, server(k, DataUrl(call.request))) == call.reply
  }

  /** What the URL says is the request but for an empty list: for one page of p, a page of p. */
  lemma UrlAsksPage(p: GetDataParams, ranges: seq<DateRange>, request: GetDataParams)
    requires AsksPage(p, ranges, request)
    ensures ReadDataQuery(DataUrl(request)) == NormalData(request)
    ensures AsksPage(NormalData(p), ranges, ReadDataQuery(DataUrl(request)))
  {
    DataQueryInverse(request);
    UrlIs(request);
    hide ReadDataQuery, DataUrl, UrlOf, DataSlots, Present;
  }

  /** The URL carries the whole query: what the server reads from it is the query that was asked. */
  lemma WireIsHonest(server: (nat, Bytes) -> Outcome, d: Decoder, from: nat, to: nat, p: GetDataParams,
                     listing: Listing, call: Exchange)
    requires HonestFor(server, d, from, to, p, listing) && FromWeb(server, d, from, to, call)
    requires AsksPage(p, ChunksOf(p), call.request)
    ensures HonestCall(listing, call)
  {
    if call.reply.Ok? {
      hide ReadDataQuery, DataUrl, HonestPage, ChunksOf, AsksPage;
      var k: nat :| from <= k < to && Interpret(d, server(k, DataUrl(call.request))) == call.reply;
      UrlAsksPage(p, ChunksOf(p), call.request);
      var url := DataUrl(call.request);
      assert HonestCall(listing, Exchange(ReadDataQuery(url), Interpret(d, server(k, url))));
    }
  }

  /**
   Whatever the clocks, the retries and the refusals did: if the server is honest on the wire about the
   query and answers its chunks from one fixed store, a successful `get_data_all` returned the chunks'
   listings in order, together exactly the records dated start..end, each as often as the store has it,
   in date order if each listing is. It succeeded exactly when no call failed, and failed with the error
   of the last call. */
  lemma GetDataAllIsExact(server: (nat, Bytes) -> Outcome, d: Decoder, from: nat, to: nat,
                          listing: Listing, store: seq<Record>,
                          p: GetDataParams, r: Result<seq<Record>>, calls: seq<Exchange>)
    requires Fetch(Replay(calls), p) == Run(r, calls)
    requires forall i :: 0 <= i < |calls| ==> FromWeb(server, d, from, to, calls[i])
    requires HonestFor(server, d, from, to, p, listing) && Faithful(listing, store, ChunksOf(p))
    ensures r.Ok? ==>
              && ParseDate(p.startDate).Good? && ParseDate(p.endDate).Good?
              && multiset(r.value) == multiset(Within(store, DayOf(p.startDate), DayOf(p.endDate)))
              && r.value == Concat(listing, ChunksOf(p))
    ensures r.Ok? && InDateOrder(listing, ChunksOf(p)) ==> DateOrdered(r.value)
    ensures r.Ok? && DateOrdered(store) && InOrder(listing, store, ChunksOf(p)) ==>
              r.value == Within(store, DayOf(p.startDate), DayOf(p.endDate))
    ensures r.Ok? <==> Splits(p) && AllAnswered(calls)
    ensures r.Err? && Splits(p) ==> calls != [] && calls[|calls| - 1].reply == Err(r.error)
  {
    FetchSplits(Replay(calls), p);
    hide HonestFor, FromWeb, HonestCall, Faithful, FetchRanges, Split, Splits, ChunksOf, Fetch, Within, DayOf,
         ParseDate, DateOrdered, InDateOrder, InOrder, Concat, Gathered, AsksPage;
    if Splits(p) {
      FetchOfChunks(Replay(calls), p);
      RunRequests(Replay(calls), 0, p, ChunksOf(p));
      forall i | 0 <= i < |calls|
        ensures HonestCall(listing, calls[i])
      {
        WireIsHonest(server, d, from, to, p, listing, calls[i]);
      }
      FetchAllExact(Replay(calls), p, listing, store);
      RunExplained(Replay(calls), 0, p, ChunksOf(p));
      if DateOrdered(store) && InOrder(listing, store, ChunksOf(p)) {
        FetchAllIsOneShot(Replay(calls), p, listing, store);
      }
    }
  }

  lemma FetchSplits(server: Server, p: GetDataParams)
    ensures !Splits(p) ==> Fetch(server, p).result.Err?
  {
  }

  /** A success that the client recorded is the server's answer to the last get of its call. */
  lemma TracedIsFromWeb(c: CDOClient, from: nat, to: nat, call: Exchange, a: Attempted)
    requires c.Traced(call, a) && from <= a.from && a.from + a.issued <= to
    ensures FromWeb(c.env.server, c.decoder, from, to, call)
    ensures call.reply.Ok? ==>
              && a.issued > 0
              && call.reply == Interpret(c.decoder, c.env.server(a.from + a.issued - 1, DataUrl(call.request)))
  {
    hide DataUrl, Retry.RetryTrace;
    var outcomes := c.Outcomes(call.request, a);
    if call.reply.Ok? {
      assert Final(outcomes).Ok?;
      assert a.refusal.None? && outcomes[a.issued - 1] == c.env.server(a.from + (a.issued - 1), DataUrl(call.request));
    }
  }

  /**
   The same for a run of the client itself, if the server was honest while it lasted. Whether it succeeds,
   and the error it fails with, are decided by what the attempts of its calls came to: answers of the
   server, or justified refusals. */
  lemma ClientFetchIsExact(c: CDOClient, sent: seq<Bytes>, listing: Listing, store: seq<Record>,
                           p: GetDataParams, r: Result<seq<Record>>, calls: seq<Exchange>, log: seq<Attempted>)
    requires c.Recorded(sent, calls, log) && Fetch(Replay(calls), p) == Run(r, calls)
    requires HonestFor(c.env.server, c.decoder, |sent|, |c.env.sent|, p, listing)
    requires Faithful(listing, store, ChunksOf(p))
    ensures r.Ok? ==>
              && ParseDate(p.startDate).Good? && ParseDate(p.endDate).Good?
              && multiset(r.value) == multiset(Within(store, DayOf(p.startDate), DayOf(p.endDate)))
              && r.value == Concat(listing, ChunksOf(p))
    ensures r.Ok? && InDateOrder(listing, ChunksOf(p)) ==> DateOrdered(r.value)
    ensures r.Ok? && DateOrdered(store) && InOrder(listing, store, ChunksOf(p)) ==>
              r.value == Within(store, DayOf(p.startDate), DayOf(p.endDate))
    ensures r.Ok? <==> Splits(p) && forall i :: 0 <= i < |calls| ==> c.Came(calls[i].request, log[i]).Ok?
    ensures r.Err? && Splits(p) ==>
              && calls != []
              && c.Came(calls[|calls| - 1].request, log[|calls| - 1]) == Err(r.error)
  {
    hide HonestFor, Faithful, FetchRanges, Split, Splits, ChunksOf, Within, DayOf, ParseDate, DateOrdered, InDateOrder,
         InOrder, Concat, FromWeb, DataUrl, Retry.RetryTrace, Interpret, Paths;
    forall i | 0 <= i < |calls|
      ensures FromWeb(c.env.server, c.decoder, |sent|, |c.env.sent|, calls[i])
      ensures calls[i].reply == c.Came(calls[i].request, log[i])
    {
      assert c.Traced(calls[i], log[i]);
      PathsOfCall(calls, log, i);
      TracedIsFromWeb(c, |sent|, |c.env.sent|, calls[i], log[i]);
    }
    GetDataAllIsExact(c.env.server, c.decoder, |sent|, |c.env.sent|, listing, store, p, r, calls);
  }

  // ------------------------------------------------------- such servers exist

  // What a server holds: for every query, and for every range of dates, its own records.
  type Holdings = GetDataParams -> seq<Record>

  /** A query for a range of dates, whatever page of it is asked for. */
  function Asked(p: GetDataParams, range: DateRange): GetDataParams {
    NormalData(p).(startDate := range.first, endDate := range.second, offset := None, limit := None)
  }

  function ListingOf(holdings: Holdings, p: GetDataParams): Listing {
    (range: DateRange) => holdings(Asked(p, range))
  }

  /** The page of what the server holds for a request. */
  function Paged(holdings: Holdings, size: GetDataParams -> PageSize, request: GetDataParams): Result<Page> {
    PageAt(holdings(Asked(request, DateRange(request.startDate, request.endDate))), OffsetOf(request), size(request))
  }

  /**
   A server that pages whatever it holds for a query, by sizes of its own choice, over any encoding its
   bodies decode from. A request without an offset gets the first page, one past the end an empty page. */
  function PagingServer(holdings: Holdings, size: GetDataParams -> PageSize, encode: Page -> Bytes)
    : (nat, Bytes) -> Outcome
  {
    (k: nat, url: Bytes) =>
      match Paged(holdings, size, ReadDataQuery(url))
      case Ok(page) => Ok(HttpResponse(200, encode(page)))
      case Err(_) => Ok(HttpResponse(500, []))
  }

  lemma PagedOnWire(holdings: Holdings, size: GetDataParams -> PageSize, encode: Page -> Bytes, d: Decoder,
                    k: nat, url: Bytes)
    requires forall page :: d.decode(encode(page)) == Ok(page)
    ensures var got := Interpret(d, PagingServer(holdings, size, encode)(k, url));
            var page := Paged(holdings, size, ReadDataQuery(url));
            if page.Ok? then got == page else got.Err?
  {
    hide ReadDataQuery, Paged;
  }

  lemma PagedIsHonest(holdings: Holdings, size: GetDataParams -> PageSize, p: GetDataParams, ranges: seq<DateRange>,
                      request: GetDataParams)
    requires AsksPage(NormalData(p), ranges, request)
    ensures HonestCall(ListingOf(holdings, p), Exchange(request, Paged(holdings, size, request)))
  {
    SameAsked(request, p, ranges);
    hide HonestPage, PageAt, Asked, NormalData, AsksPage;
  }

  /** Such a server is honest about every query at all times, each with records of its own. */
  lemma PagingServerIsHonest(holdings: Holdings, size: GetDataParams -> PageSize, encode: Page -> Bytes, d: Decoder,
                             from: nat, to: nat, p: GetDataParams)
    requires forall page :: d.decode(encode(page)) == Ok(page)
    ensures HonestFor(PagingServer(holdings, size, encode), d, from, to, p, ListingOf(holdings, p))
  {
    var server := PagingServer(holdings, size, encode);
    forall k: nat, url: Bytes | from <= k < to && AsksPage(NormalData(p), ChunksOf(p), ReadDataQuery(url))
      ensures HonestCall(ListingOf(holdings, p), Exchange(ReadDataQuery(url), Interpret(d, server(k, url))))
    {
      hide ReadDataQuery, HonestPage, Paged, Interpret, ListingOf, NormalData, AsksPage, ChunksOf;
      PagedIsHonest(holdings, size, p, ChunksOf(p), ReadDataQuery(url));
      PagedOnWire(holdings, size, encode, d, k, url);
    }
  }

  lemma SameAsked(request: GetDataParams, p: GetDataParams, ranges: seq<DateRange>)
    requires AsksPage(NormalData(p), ranges, request)
    ensures var range := DateRange(request.startDate, request.endDate); Asked(request, range) == Asked(p, range)
  {
  }

  /** And it answers a request without an offset. */
  lemma AnswersWithoutOffset(holdings: Holdings, size: GetDataParams -> PageSize, encode: Page -> Bytes, d: Decoder,
                             k: nat, p: GetDataParams)
    requires forall page :: d.decode(encode(page)) == Ok(page)
    requires p.offset.None? && |holdings(Asked(p, DateRange(p.startDate, p.endDate)))| <= INT32_MAX
    ensures Interpret(d, PagingServer(holdings, size, encode)(k, DataUrl(p))).Ok?
  {
    DataQueryInverse(p);
    UrlIs(p);
    PagedOnWire(holdings, size, encode, d, k, DataUrl(p));
    hide ReadDataQuery, DataUrl, UrlOf, DataSlots, Present, PageAt, Interpret, PagingServer;
    assert Asked(NormalData(p), DateRange(p.startDate, p.endDate)) == Asked(p, DateRange(p.startDate, p.endDate));
  }

  /**
   The rate over the life of a client: all HTTP gets it ever sent, retries included, number at most
   its initial tokens plus one for each refill interval since construction, and at most
   max_tokens plus one for each refill interval since its first attempt. */
  lemma RequestsOverLife(c: CDOClient)
    requires c.Valid()
    ensures |c.env.sent| <= c.limiter.config.initialTokens
                            + (c.env.steady - c.limiter.startTime) / IntervalNs(c.limiter.config)
    ensures c.limiter.history != [] ==>
              |c.env.sent| <= c.limiter.config.maxTokens
                              + (c.env.steady - c.limiter.history[0].now) / IntervalNs(c.limiter.config)
  {
    var l, env := c.limiter, c.env;
    var es, w := l.history, IntervalNs(l.config);
    GrantsAreCounted(l.config, l.Start(), es);
    GrantsSpendPotential(l.config, l.Start(), l.startTime, es);
    OrderedParts(l.startTime, es, 0);
    BoundFromProduct(|env.sent|, l.config.initialTokens, w, env.steady - l.startTime);
    if es != [] {
      WindowPotential(l.config, l.Start(), l.startTime, es);
      BoundFromProduct(|env.sent|, l.config.maxTokens, w, env.steady - es[0].now);
    }
  }

  /**
   The rate over any window of time, by the steady clock and whatever the system clock was set to: the
   HTTP gets that left in it number at most max_tokens + 1 + floor(length / interval). The one is there
   exactly when the window has as many acquisitions as it can, a get of it was overdue at its start, and
   no acquisition of it is left over at its end. */
  lemma RequestsInWindow(c: CDOClient, from: int, to: int)
    requires c.Valid() && from <= to
    ensures var grants, gets := Moments(c.Granted()), Moments(c.env.gets);
            var most := c.limiter.config.maxTokens + Intervals(c.limiter.config, to - from);
            && Count(gets, from, to) <= most + 1
            && (NoneUnsent(grants, gets, from) ==> Count(gets, from, to) <= most)
            && (Count(gets, from, to) > most <==>
                  && Count(grants, from, to) == most
                  && Overdue(grants, gets, from, to) == 1
                  && LeftOver(grants, gets, from, to) == 0)
  {
    var l := c.limiter;
    GetsInWindow(l.config, l.Start(), l.startTime, l.history, Moments(c.env.gets), c.env.steady, from, to);
  }

  /**
   The quota, as long as the system clock was not set: the HTTP gets that left on one UTC day number at
   most the limit plus one, and exceed the limit exactly when the quota of the day was granted in full, one
   get was overdue at midnight, and none was left over at the next. */
  lemma RequestsPerDay(c: CDOClient, day: int)
    requires c.Valid() && c.limiter.config.dailyLimit > 0 && c.env.corrections == c.limiter.startCorrections
    ensures var grants, gets, limit := Days(c.Granted()), Days(c.env.gets), c.limiter.config.dailyLimit;
            && Count(gets, day, day) <= limit + 1
            && (NoneUnsent(grants, gets, day) ==> Count(gets, day, day) <= limit)
            && (Count(gets, day, day) > limit <==>
                  && Count(grants, day, day) == limit
                  && Overdue(grants, gets, day, day) == 1
                  && LeftOver(grants, gets, day, day) == 0)
  {
    var l := c.limiter;
    GetsOnDay(l.config, l.Start(), l.history, Days(c.env.gets), DayOfClock(c.env.system), day);
    GrantsOnIsCount(l.config, l.Start(), l.history, day);
  }
}

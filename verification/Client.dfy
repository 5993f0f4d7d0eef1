/**
 The client: requests through retry loop and rate limiter, and the paged fetch of a long date
 range on top of them (src/api/cdo_client.cpp). */
module Client {
  import opened Core
  import opened Environment
  import opened TokenBucket
  import opened Pacing
  import RL = RateLimiter
  import opened Retry
  import opened DateRange
  import opened Pagination
  import opened Query
  import opened FetchAll
  import opened FetchProgress

  const QUOTA := Error(QuotaExceeded, "CDO daily request quota exceeded")
  const TIMED_OUT := Error(RateLimited, "Rate limit acquisition timed out")

  // What happens to a response body: the JSON decoder and the reader of error bodies are not part
  // of this model and stay arbitrary.
  datatype Decoder = Decoder(decode: Bytes -> Result<Page>, errorOf: (int, Bytes) -> Error)

  function Interpret(d: Decoder, outcome: Outcome): Result<Page> {
    match outcome
    case Err(e) => Err(e)
    case Ok(response) =>
      if response.status != 200 then Err(d.errorOf(response.status, response.body)) else d.decode(response.body)
  }

  /** What `get_data` makes of an outcome: an error, the decoded body of a 200, or the error of another status. */
  lemma Interpreted(d: Decoder, outcome: Outcome)
    ensures outcome.Err? ==> Interpret(d, outcome) == Err(outcome.error)
    ensures outcome.Ok? && outcome.value.status == 200 ==> Interpret(d, outcome) == d.decode(outcome.value.body)
    ensures outcome.Ok? && outcome.value.status != 200 ==>
              Interpret(d, outcome) == Err(d.errorOf(outcome.value.status, outcome.value.body))
  {
  }

  /** What a `get_data` call did: `issued` gets from the `from`-th on, and perhaps a refusal after them. */
  datatype Attempted = Attempted(from: nat, issued: nat, refusal: Option<Error>)

  /** What the retry loop returns after these outcomes. */
  function Final(outcomes: seq<Outcome>): Outcome {
    if outcomes == [] then Err(ATTEMPTS_EXCEEDED) else outcomes[|outcomes| - 1]
  }

  /** The paths of the gets of several calls, one after the other. */
  function Paths(calls: seq<Exchange>, log: seq<Attempted>): seq<Bytes>
    requires |calls| == |log|
  {
    if calls == [] then []
    else
      var n := |calls| - 1;
      Paths(calls[..n], log[..n]) + Repeat(DataUrl(calls[n].request), log[n].issued)
  }

  lemma PathsSize(calls: seq<Exchange>, log: seq<Attempted>, n: nat)
    requires |calls| == |log| == n + 1
    ensures |Paths(calls, log)| == |Paths(calls[..n], log[..n])| + log[n].issued
  {
    hide DataUrl;
  }

  lemma {:induction false} PathsOfCall(calls: seq<Exchange>, log: seq<Attempted>, i: nat)
    requires i < |calls| == |log|
    ensures |Paths(calls[..i], log[..i])| + log[i].issued <= |Paths(calls, log)|
  {
    hide Paths;
    var n := |calls| - 1;
    PathsSize(calls, log, n);
    if i == n {
    } else {
      assert calls[..n][..i] == calls[..i] && log[..n][..i] == log[..i];
      PathsOfCall(calls[..n], log[..n], i);
    }
  }

  // A moment in the life of a client: its clocks, and how many attempts its limiter had seen.
  datatype Moment = Moment(steady: int, system: int, corrections: nat, attempts: nat)

  predicate Earlier(a: Moment, b: Moment) {
    && a.steady <= b.steady && b.corrections <= a.corrections && a.attempts <= b.attempts
    && (b.corrections == a.corrections ==> a.system <= b.system)
  }

  class CDOClient {
    const env: Env
    const limiter: RL.RateLimiter
    const retry: RetryPolicy
    const decoder: Decoder

    /** The readings of all acquisitions granted to this client. */
    ghost function Granted(): seq<Reading>
      reads limiter
      requires Sane(limiter.config)
    {
      GrantReadings(limiter.config, limiter.Start(), limiter.history)
    }

    /**
     Every HTTP get is paid for by an acquisition of its own: it left after that one and before the
     next, by the steady clock always, and by the days of the system clock as long as it was not set. */
    ghost predicate Paced()
      reads this, env, limiter
      requires Sane(limiter.config)
    {
      && Alternate(Moments(Granted()), Moments(env.gets), env.steady)
      && (env.corrections == limiter.startCorrections ==>
            Alternate(Days(Granted()), Days(env.gets), DayOfClock(env.system)))
    }

    ghost predicate Valid()
      reads this, env, limiter
    {
      env.Valid() && limiter.Valid(env) && NoReset(limiter.history) && Paced()
    }

    constructor (config: Config, retry: RetryPolicy, decoder: Decoder, env: Env)
      requires env.Valid() && env.sent == []
      modifies env
      ensures Valid() && this.env == env && fresh(limiter) && env.sent == []
      ensures this.retry == retry && this.decoder == decoder && limiter.config == Sanitized(config)
    {
      var l := new RL.RateLimiter(config, env);
      this.env, this.retry, this.decoder, this.limiter := env, retry, decoder, l;
    }

    ghost function Now(): Moment
      reads env, limiter
    {
      Moment(env.steady, env.system, env.corrections, |limiter.history|)
    }

    /** A bounded wait ran out: from its `m`-th attempt on the limiter granted none, and the wait is over. */
    ghost predicate RanOut(m: nat, begin: int)
      reads env, limiter
    {
      && Sane(limiter.config) && limiter.config.maxWait.Some?
      && m < |limiter.history| && NoReset(limiter.history[m..]) && begin <= limiter.history[m].now
      && GrantReadings(limiter.config, TokenBucket.Run(limiter.config, limiter.Start(), limiter.history[..m]),
                       limiter.history[m..]) == []
      && Min(begin + Max(limiter.config.maxWait.value, 0) * 1_000_000, 0x7fff_ffff_ffff_ffff) <= env.steady
    }

    /**
     A refusal, and why: the quota is spent, of a day not before `since` unless the system clock was set
     since then; or a bounded wait, begun since then, ran out with no attempt granted. */
    ghost predicate Refused(r: Outcome, since: Moment)
      reads this, env, limiter
    {
      || (r == Err(QUOTA) && Exhausted(limiter.config, limiter.St())
          && (env.corrections == since.corrections ==> DayOfClock(since.system) <= limiter.dayStart))
      || (r == Err(TIMED_OUT) && exists m: nat, begin ::
            RanOut(m, begin) && since.attempts <= m && since.steady <= begin)
    }

    lemma RefusedMeans(r: Outcome, since: Moment)
      requires Refused(r, since)
      ensures || (r == Err(Error(QuotaExceeded, "CDO daily request quota exceeded")) && limiter.config.dailyLimit > 0)
              || (r == Err(Error(RateLimited, "Rate limit acquisition timed out")) && limiter.config.maxWait.Some?)
    {
    }

    /** What is refused since a moment is refused since any earlier one. */
    lemma RefusedSinceEarlier(r: Outcome, since: Moment, earlier: Moment)
      requires Refused(r, since) && Earlier(earlier, since) && Earlier(since, Now())
      ensures Refused(r, earlier)
    {
      DayMonotone(earlier.system, since.system);
    }

    /**
     The operation that `do_get` retries: quota check, acquisition, HTTP get. `es` are the attempts of the
     acquisition: none if the quota check refused. The get is issued exactly if one of them was granted,
     and so whenever the first of them finds a token and quota. */
    method Operation(path: Bytes) returns (r: Outcome, ghost issued: bool, ghost es: seq<Event>)
      requires Valid()
      modifies env, limiter
      ensures Valid() && Earlier(old(Now()), Now())
      ensures env.sent == old(env.sent) + (if issued then [path] else [])
      ensures env.served == old(env.served) + (if issued then 1 else 0)
      ensures issued ==> r == env.server(old(env.served), path)
      ensures !issued ==> Refused(r, old(Now()))
      ensures limiter.history == old(limiter.history) + es && NoReset(es)
      ensures issued <==> GrantReadings(limiter.config, old(limiter.St()), es) != []
      ensures es != [] && TokenBucket.Granted(limiter.config, old(limiter.St()), es[0]) ==> issued
      ensures env.asked <= old(env.asked) + Max(|es| - 1, 0) * 10_000_000
      ensures limiter.config.maxWait.Some? ==>
                |es| <= RL.Attempts((Max(limiter.config.maxWait.value, 0) + 1) * 1_000_000)
      ensures !issued ==> r == if es == [] then Err(QUOTA) else Err(TIMED_OUT)
    {
      hide GrantReadings, TokenBucket.Run, TokenBucket.Granted, DayOfClock, Alternate, Moments, Days, Refused, RanOut;
      LaterIsFine(Granted(), env.gets);
      ghost var grants, gets := Granted(), env.gets;
      ghost var today;
      var remaining;
      remaining, today := limiter.DailyRequestsRemaining(env);
      DayMonotone(old(env.system), env.system);
      if remaining <= 0 {
        NothingGranted(limiter.config, old(limiter.St()));
        QuotaIsSpent(old(Now()));
        return Err(QUOTA), false, [];
      }
      ghost var before := limiter.history;
      ghost var g;
      var ok;
      label Checked:
      ok, es, g := limiter.Acquire(env);
      DayMonotone(old@Checked(env.system), env.system);
      RunOfConcat(limiter.config, limiter.Start(), before, es);
      FirstIsGranted(limiter.config, old(limiter.St()), es);
      assert Granted() == grants + if ok then [g] else [];
      if !ok {
        assert Granted() == grants;
        WaitIsOver(before, es, old@Checked(env.steady), old(Now()));
        return Err(TIMED_OUT), false, es;
      }
      label Acquired:
      ghost var left;
      r, left := env.HttpGet(path);
      DayMonotone(old@Acquired(env.system), env.system);
      OneGetMore(grants, gets, g, left);
      issued := true;
    }

    lemma QuotaIsSpent(since: Moment)
      requires Exhausted(limiter.config, limiter.St())
      requires env.corrections == since.corrections ==> DayOfClock(since.system) <= limiter.dayStart
      ensures Refused(Err(QUOTA), since)
    {
    }

    lemma WaitIsOver(before: seq<Event>, es: seq<Event>, begin: int, since: Moment)
      requires Sane(limiter.config) && limiter.config.maxWait.Some?
      requires limiter.history == before + es && es != [] && NoReset(es) && begin <= es[0].now
      requires GrantReadings(limiter.config, TokenBucket.Run(limiter.config, limiter.Start(), before), es) == []
      requires Min(begin + Max(limiter.config.maxWait.value, 0) * 1_000_000, 0x7fff_ffff_ffff_ffff) <= env.steady
      requires since.attempts <= |before| && since.steady <= begin
      ensures Refused(Err(TIMED_OUT), since)
    {
      hide GrantReadings, TokenBucket.Run;
      assert limiter.history[..|before|] == before && limiter.history[|before|..] == es;
      assert limiter.history[|before|] == es[0];
      assert RanOut(|before|, begin);
    }

    lemma NothingGranted(c: Config, s: State)
      requires Sane(c)
      ensures GrantReadings(c, s, []) == []
    {
    }

    lemma FirstIsGranted(c: Config, s: State, es: seq<Event>)
      requires Sane(c) && es != []
      ensures TokenBucket.Granted(c, s, es[0]) ==> GrantReadings(c, s, es) != []
    {
    }

    /** The operation within `do_get`, begun at `start`: a refusal since then is final. */
    method Attempt(path: Bytes, ghost start: Moment) returns (r: Outcome, ghost issued: bool)
      requires Valid() && Earlier(start, Now())
      modifies env, limiter
      ensures Valid() && Earlier(start, Now()) && old(env.steady) <= env.steady
      ensures env.sent == old(env.sent) + (if issued then [path] else [])
      ensures env.served == old(env.served) + (if issued then 1 else 0)
      ensures issued ==> r == env.server(old(env.served), path)
      ensures !issued ==> Refused(r, start) && !ShouldRetry(r, retry)
      ensures env.asked - old(env.asked) <= (|limiter.history| - |old(limiter.history)|) * 10_000_000
    {
      hide Valid, Refused, ShouldRetry;
      ghost var es;
      r, issued, es := Operation(path);
      if !issued {
        RefusedMeans(r, old(Now()));
        RefusalsAreFinal(retry, r.error);
        RefusedSinceEarlier(r, old(Now()), start);
      }
    }

    method Sleep(ms: nat)
      requires Valid()
      modifies env
      ensures Valid() && env.OnlyTimePassed() && env.steady >= old(env.steady) + ms * 1_000_000
      ensures env.asked == old(env.asked) + ms * 1_000_000
    {
      env.PassTime(ms * NS_PER_MS);
      DayMonotone(old(env.system), env.system);
    }

    /** The pause before the next attempt: a jittered backoff delay, slept through. */
    method Pause(attempt: UInt8) returns (delay: nat)
      requires Valid()
      modifies env
      ensures Valid() && env.OnlyTimePassed() && env.steady >= old(env.steady) + delay * 1_000_000
      ensures env.asked == old(env.asked) + delay * 1_000_000
      ensures delay <= Maximum(retry)
      ensures IsPause(attempt, retry, delay)
    {
      var draw := env.Jitter(Spread(retry));
      DelayRange(attempt, retry, draw);
      delay := CalculateRetryDelay(attempt, retry, draw);
      Sleep(delay);
    }

    /**
     `do_get`: the retry loop around the operation. `outcomes` are the results of its attempts and
     `slept` the delays between them; `issued` of the attempts reached the server: all of them, or
     all but the last when that one was refused by the quota or the limiter. */
    method DoGet(path: Bytes)
      returns (r: Outcome, ghost outcomes: seq<Outcome>, ghost issued: nat, ghost slept: seq<int>)
      requires Valid()
      modifies env, limiter
      ensures Valid() && Earlier(old(Now()), Now())
      ensures RetryTrace(retry, outcomes, r)
      ensures env.sent == old(env.sent) + Repeat(path, issued)
      ensures issued <= |outcomes| && FromServer(env.server, old(env.served), path, outcomes[..issued])
      ensures issued == |outcomes| || (issued == |outcomes| - 1 && Refused(r, old(Now())))
      ensures env.steady >= old(env.steady) + Total(slept) * 1_000_000
      ensures |slept| == (if outcomes == [] then 0 else |outcomes| - 1) && Pauses(retry, slept)
      ensures Total(slept) <= |slept| * Maximum(retry)
      ensures env.asked - old(env.asked)
              <= Total(slept) * 1_000_000 + (|limiter.history| - |old(limiter.history)|) * 10_000_000
    {
      hide Valid, Pauses, IsPause, RetryTrace, Refused, ShouldRetry, Maximum, FromServer, AllRetried;
      NothingTried(retry, env.server, env.served, path);
      outcomes, issued, slept := [], 0, [];
      NoPauses(retry);
      assert old(env.sent) + Repeat(path, 0) == old(env.sent);
      var attempt: UInt8 := 1;
      while attempt <= retry.maxAttempts
        invariant Valid()
        invariant 1 <= attempt && (attempt <= retry.maxAttempts || attempt == 1)
        invariant |outcomes| == |slept| == issued == attempt - 1
        invariant AllRetried(retry, outcomes) && FromServer(env.server, old(env.served), path, outcomes)
        invariant env.sent == old(env.sent) + Repeat(path, |outcomes|) && env.served == old(env.served) + |outcomes|
        invariant Pauses(retry, slept)
        invariant Earlier(old(Now()), Now()) && env.steady >= old(env.steady) + Total(slept) * 1_000_000
        invariant env.asked - old(env.asked)
                  <= Total(slept) * 1_000_000 + (|limiter.history| - |old(limiter.history)|) * 10_000_000
        decreases retry.maxAttempts - attempt
      {
        ghost var reached, before := true, outcomes;
        r, reached := Attempt(path, old(Now()));
        outcomes, issued := before + [r], |before| + if reached then 1 else 0;
        assert Repeat(path, |before|) + [path] == Repeat(path, |before| + 1);
        OneOutcomeMore(retry, env.server, old(env.served), path, before, r, reached);
        if ShouldRetry(r, retry) && attempt < retry.maxAttempts {
          var delay := Pause(attempt);
          OnePauseMore(retry, slept, delay);
          slept := slept + [delay];
          attempt := attempt + 1;
          continue;
        }
        TraceEnds(retry, before, r);
        TotalOfPauses(retry, slept);
        return;
      }
      NoAttempts(retry);
      TotalOfPauses(retry, slept);
      r := Err(ATTEMPTS_EXCEEDED);
    }

    /** The outcomes of the attempts: what the server answered to the request's URL, and the refusal. */
    function Outcomes(request: GetDataParams, a: Attempted): (outcomes: seq<Outcome>)
      ensures |outcomes| == a.issued + if a.refusal.Some? then 1 else 0
    {
      seq(a.issued, i requires 0 <= i => env.server(a.from + i, DataUrl(request)))
      + if a.refusal.Some? then [Err(a.refusal.value)] else []
    }

    /** What they came to: the last one, interpreted. */
    function Came(request: GetDataParams, a: Attempted): Result<Page> {
      Interpret(decoder, Final(Outcomes(request, a)))
    }

    /**
     The whole account of one `get_data` call: its attempts form a retry trace, its reply is the last
     outcome interpreted, and a refusal is one that the configuration of the limiter allows. */
    ghost predicate Traced(call: Exchange, a: Attempted)
    {
      var outcomes := Outcomes(call.request, a);
      && RetryTrace(retry, outcomes, Final(outcomes))
      && call.reply == Came(call.request, a)
      && (a.refusal.Some? ==>
            || (a.refusal.value == QUOTA && limiter.config.dailyLimit > 0)
            || (a.refusal.value == TIMED_OUT && limiter.config.maxWait.Some?))
    }

    /** If the call ended in a refusal, that was justified. */
    ghost predicate Justified(a: Attempted, since: Moment)
      reads this, env, limiter
    {
      a.refusal.Some? ==> Refused(Err(a.refusal.value), since)
    }

    lemma JustifiedSinceEarlier(a: Attempted, since: Moment, earlier: Moment)
      requires Justified(a, since) && Earlier(earlier, since) && Earlier(since, Now())
      ensures Justified(a, earlier)
    {
      if a.refusal.Some? {
        RefusedSinceEarlier(Err(a.refusal.value), since, earlier);
      }
    }

    /** `get_data`: one request for the query's URL, repeated as the retry policy says. */
    method GetData(p: GetDataParams) returns (reply: Result<Page>, ghost a: Attempted)
      requires Valid()
      modifies env, limiter
      ensures Valid() && Earlier(old(Now()), Now())
      ensures a.from == old(env.served) && Traced(Exchange(p, reply), a)
      ensures Justified(a, old(Now()))
      ensures env.sent == old(env.sent) + Repeat(DataUrl(p), a.issued)
    {
      hide Valid, UrlOf, Present, DataSlots, Pauses, RetryTrace, FromServer, Refused, DataUrl;
      UrlIs(p);
      var url := BuildDataQuery(p);
      ghost var outcomes, issued, slept;
      var r;
      r, outcomes, issued, slept := DoGet(url);
      if r.Err? {
        reply := Err(r.error);
      } else if r.value.status != 200 {
        reply := Err(decoder.errorOf(r.value.status, r.value.body));
      } else {
        reply := decoder.decode(r.value.body);
      }
      if issued < |outcomes| {
        RefusedMeans(r, old(Now()));
      }
      a := Attempted(old(env.served), issued, if issued < |outcomes| then Some(r.error) else None);
      TraceIsFinal(retry, outcomes, r);
      OutcomesAre(p, a, outcomes, r);
    }

    lemma OutcomesAre(p: GetDataParams, a: Attempted, outcomes: seq<Outcome>, r: Outcome)
      requires RetryTrace(retry, outcomes, r) && a.issued <= |outcomes|
      requires FromServer(env.server, a.from, DataUrl(p), outcomes[..a.issued])
      requires a.refusal.Some? ==> a.issued == |outcomes| - 1 && r == Err(a.refusal.value)
      requires a.refusal.None? ==> a.issued == |outcomes|
      ensures Outcomes(p, a) == outcomes
    {
      assert forall i :: 0 <= i < a.issued ==> outcomes[..a.issued][i] == outcomes[i];
    }

    /**
     Every call recorded is accounted for, the gets sent since `sent` are theirs, in order, and each
     call's answers are those of its own gets. */
    ghost predicate Recorded(sent: seq<Bytes>, calls: seq<Exchange>, log: seq<Attempted>)
      reads this, env, limiter
    {
      && Valid() && |calls| == |log| && env.sent == sent + Paths(calls, log)
      && forall i :: 0 <= i < |calls| ==>
           Traced(calls[i], log[i]) && log[i].from == |sent| + |Paths(calls[..i], log[..i])|
    }

    method RecordedGetData(request: GetDataParams, ghost sent: seq<Bytes>, ghost calls: seq<Exchange>,
                           ghost log: seq<Attempted>)
      returns (reply: Result<Page>, ghost a: Attempted)
      requires Recorded(sent, calls, log)
      modifies env, limiter
      ensures Recorded(sent, calls + [Exchange(request, reply)], log + [a])
      ensures Earlier(old(Now()), Now()) && Justified(a, old(Now()))
    {
      hide Valid, Traced, DataUrl;
      ServedIsSent();
      reply, a := GetData(request);
      ghost var calls', log' := calls + [Exchange(request, reply)], log + [a];
      assert calls'[..|calls|] == calls && log'[..|log|] == log;
      assert forall i :: 0 <= i < |calls| ==> calls'[..i] == calls[..i] && log'[..i] == log[..i];
    }

    lemma ServedIsSent()
      requires Valid()
      ensures env.served == |env.sent|
    {
    }

    /** Calls cost at most as many HTTP gets each as the retry policy allows attempts. */
    lemma {:induction false} CostOfCalls(calls: seq<Exchange>, log: seq<Attempted>)
      requires |calls| == |log| && forall i :: 0 <= i < |calls| ==> Traced(calls[i], log[i])
      ensures |Paths(calls, log)| <= |calls| * retry.maxAttempts
    {
      if calls == [] {
      } else {
        var n := |calls| - 1;
        CostOfCalls(calls[..n], log[..n]);
        TraceBound(retry, Outcomes(calls[n].request, log[n]), Final(Outcomes(calls[n].request, log[n])));
        OneMore(n, retry.maxAttempts);
      }
    }

    /**
     `get_data_all`: the result is that of the run `Fetch` on the replies received, which are
     recorded in `calls`, one for each `get_data` call, in order; a failing run's last call is justified. */
    method GetDataAll(p: GetDataParams)
      returns (r: Result<seq<Record>>, ghost calls: seq<Exchange>, ghost log: seq<Attempted>)
      requires Valid()
      modifies env, limiter
      ensures Recorded(old(env.sent), calls, log) && Earlier(old(Now()), Now())
      ensures Fetch(Replay(calls), p) == Run(r, calls)
      ensures r.Err? && log != [] ==> Justified(log[|log| - 1], old(Now()))
    {
      hide Valid, Recorded, FetchRanges, AtRanges, Replay, Justified, DayOfClock, Split;
      var all: seq<Record> := [];
      calls, log := [], [];
      NothingRecorded();
      var split := SplitDateRange(p.startDate, p.endDate, MAX_CHUNK_DAYS);
      if split.Bad? {
        return Err(Error(InvalidRequest, What(split.error))), [], [];
      }
      var ranges := split.value;
      Start(p, ranges);
      assert ranges[0..] == ranges;
      for i := 0 to |ranges|
        invariant Recorded(old(env.sent), calls, log) && Earlier(old(Now()), Now())
        invariant AtRanges(p, ranges, ranges[i..], all, calls)
      {
        assert ranges[i..][0] == ranges[i] && ranges[i..][1..] == ranges[i + 1..];
        EnterChunk(p, ranges, ranges[i..], all, calls);
        var failed;
        label Turn:
        all, failed, calls, log := FetchPages(p, ranges, ranges[i], ranges[i + 1..], all, calls, log, old(env.sent));
        if failed.Some? {
          ReplayAgrees(calls);
          JustifiedSinceEarlier(log[|log| - 1], old@Turn(Now()), old(Now()));
          return Err(failed.value), calls, log;
        }
      }
      assert ranges[|ranges|..] == [];
      ReplayAgrees(calls);
      Finish(p, ranges, all, calls, Replay(calls));
      r := Ok(all);
    }

    lemma NothingRecorded()
      requires Valid()
      ensures Recorded(env.sent, [], [])
    {
    }

    /** The page loop on one chunk: collects its records, or stops the whole fetch with an error. */
    method FetchPages(p: GetDataParams, ghost ranges: seq<DateRange>, range: DateRange, ghost later: seq<DateRange>,
                      records: seq<Record>, ghost before: seq<Exchange>, ghost logBefore: seq<Attempted>,
                      ghost sent: seq<Bytes>)
      returns (all: seq<Record>, failed: Option<Error>, ghost calls: seq<Exchange>, ghost log: seq<Attempted>)
      requires Recorded(sent, before, logBefore)
      requires AtPage(p, ranges, range, 1, later, records, before)
      modifies env, limiter
      ensures Recorded(sent, calls, log) && Earlier(old(Now()), Now())
      ensures failed.None? ==> AtRanges(p, ranges, later, all, calls)
      ensures failed.Some? ==>
                forall server: Server {:trigger Agrees(server, calls)} :: Agrees(server, calls) ==>
                  FetchRanges(server, 0, p, ranges) == Run(Err(failed.value), calls)
      ensures failed.Some? ==>
                log != [] && Justified(log[|log| - 1], old(Now()))
    {
      hide Recorded, FetchRanges, AtRanges, AtPage, PageRequest, HasMore, NextOffset, Justified;
      all, failed, calls, log := records, None, before, logBefore;
      var currentOffset: Int32 := 1;
      var hasMore := true;
      while hasMore
        invariant Recorded(sent, calls, log) && Earlier(old(Now()), Now()) && failed.None?
        invariant if hasMore then AtPage(p, ranges, range, currentOffset, later, all, calls)
                  else AtRanges(p, ranges, later, all, calls)
        decreases hasMore, INT32_MAX - currentOffset
      {
        var request := PageRequest(p, range, currentOffset);
        ghost var a;
        var reply;
        label Turn:
        reply, a := RecordedGetData(request, sent, calls, log);
        JustifiedSinceEarlier(a, old@Turn(Now()), old(Now()));
        EndOrNext(p, ranges, range, currentOffset, later, all, calls, reply);
        calls, log := calls + [Exchange(request, reply)], log + [a];
        if reply.Err? {
          failed := Some(reply.error);
          return;
        }
        var page := reply.value;
        if HasMore(page) && NextOffset(page) <= currentOffset {
          failed := Some(NO_ADVANCE);
          return;
        }
        all := all + page.results;
        hasMore := HasMore(page) && page.results != [] && NextOffset(page) > currentOffset;
        if hasMore {
          currentOffset := NextOffset(page);
        }
      }
    }
  }

  function DataUrl(p: GetDataParams): Bytes {
    UrlOf(DATA_BASE, Present(DataSlots(p)))
  }

  lemma UrlIs(p: GetDataParams)
    ensures DataUrl(p) == UrlOf(DATA_BASE, Present(DataSlots(p)))
  {
  }

  lemma EndOrNext(p: GetDataParams, ranges: seq<DateRange>, range: DateRange, offset: Int32, later: seq<DateRange>,
                  records: seq<Record>, calls: seq<Exchange>, reply: Result<Page>)
    requires AtPage(p, ranges, range, offset, later, records, calls)
    ensures var calls' := calls + [Exchange(PageRequest(p, range, offset), reply)];
            if GoesOn(reply, offset) then
              AtPage(p, ranges, range, NextOffset(reply.value), later, records + reply.value.results, calls')
            else if Ending(reply, offset).Ok? then
              AtRanges(p, ranges, later, records + Ending(reply, offset).value, calls')
            else
              forall server: Server {:trigger Agrees(server, calls')} :: Agrees(server, calls') ==>
                FetchRanges(server, 0, p, ranges) == Run(Ending(reply, offset), calls')
  {
    if GoesOn(reply, offset) {
      NextPage(p, ranges, range, offset, later, records, calls, reply);
    } else {
      EndChunk(p, ranges, range, offset, later, records, calls, reply);
    }
  }

  lemma TraceBound(p: RetryPolicy, outcomes: seq<Outcome>, r: Outcome)
    requires RetryTrace(p, outcomes, r)
    ensures |outcomes| <= p.maxAttempts
  {
  }

  lemma NothingTried(p: RetryPolicy, server: (nat, Bytes) -> Outcome, from: nat, path: Bytes)
    ensures FromServer(server, from, path, []) && AllRetried(p, [])
  {
  }

  /** One more attempt, which reached the server or was refused. */
  lemma OneOutcomeMore(p: RetryPolicy, server: (nat, Bytes) -> Outcome, from: nat, path: Bytes,
                       before: seq<Outcome>, r: Outcome, reached: bool)
    requires FromServer(server, from, path, before) && AllRetried(p, before)
    requires reached ==> r == server(from + |before|, path)
    ensures var outcomes, issued := before + [r], |before| + if reached then 1 else 0;
            && outcomes[..issued] == (if reached then outcomes else before)
            && FromServer(server, from, path, outcomes[..issued])
            && (ShouldRetry(r, p) ==> AllRetried(p, outcomes))
  {
    hide ShouldRetry;
    assert (before + [r])[..|before|] == before && (before + [r])[..|before| + 1] == before + [r];
  }

  lemma TraceIsFinal(p: RetryPolicy, outcomes: seq<Outcome>, r: Outcome)
    requires RetryTrace(p, outcomes, r)
    ensures r == Final(outcomes)
  {
  }

  lemma NoAttempts(p: RetryPolicy)
    ensures p.maxAttempts == 0 ==> RetryTrace(p, [], Err(ATTEMPTS_EXCEEDED))
  {
  }
}

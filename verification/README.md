# The NCEI climate-data client, verified

This project models the logic of the C++ client for the NCEI climate-data services that lies between
the HTTP layer and the caller: fetching a long date range in chunks and pages, the calendar under it,
the rate limiter and retry loop that every request passes, the URLs that are sent, the cache and the
delimited-text parser. Each part is a specification (functions over values), an imperative form of the
code proved to compute it, and theorems about the specification.

| module | models |
|---|---|
| `Core`, `Numerals`, `Lists` | integer widths, results, decimal text, split and join |
| `Calendar` | civil dates of years 1..9999, day numbers, date text, day arithmetic |
| `DateRange` | cutting a range of dates into chunks |
| `Url`, `Query`, `QueryInverse`, `UrlText` | percent-encoding, the three query builders, readers that invert them, and their URLs written out |
| `Pagination`, `FetchAll`, `FetchProgress` | page metadata, the two nested fetch loops as a function of the replies, the one-shot query they refine |
| `Completeness` | when a successful fetch holds everything the server counts |
| `PagedStore` | a concrete server that meets every assumption made of servers |
| `Environment` | clocks, sleeping, and the HTTP server as an arbitrary function of request number and URL |
| `TokenBucket`, `RateLimiter` | the timed state machine, and the class whose methods are its steps |
| `Pacing` | from acquisitions to the HTTP gets they pay for |
| `Retry` | what is retried, the backoff, the retry trace |
| `Client`, `EndToEnd` | the client class composed of all the above, and what holds of it as a whole |
| `Recency`, `LruCache` | a recency-ordered list, and the map-plus-list class that refines it |
| `Csv`, `CsvRoundTrip` | the two scanners of the delimited-text parser, and a printer they invert |

The main results:

- **Fetch-all is the one-shot query.** Against a server that holds one fixed store and answers each
  call with an error or an honest page (of any size it likes), `get_data_all` succeeds exactly when no
  call failed, and then returns exactly the store's records dated start..end, each as often as it is
  stored (`FetchAllExact`, `FetchAllIsOneShot`; `FetchAllOfStore` for a concrete such server).
  `ClientFetchIsExact` states it for the client object, with percent-encoded URLs, retries, refusals and
  clocks in between: the server need only be honest while the run lasts, and about the pages the run can
  ask for, those of the query's own chunks that exist; of any other query, range, limit or offset nothing
  is assumed. A failing run is traced to what the attempts of its last call came to, the server's answer or
  a justified refusal. Against an arbitrary server the loops terminate, offsets strictly increase, and every
  outcome is accounted for (`RunExplained`).
- **A success is complete exactly when every page was full.** The page loop never compares what it got
  with the count, so against consistent metadata a success may hold less than is counted; it holds all
  of it if and only if every page brought min(limit, count - offset + 1) records (`ChunkIsComplete`,
  `RunIsComplete`, with servers that send less: `EmptyPageEndsChunk`, `EmptyLastPage`, `ShortPage`).
- **Acquisitions are bounded in every window of time.** On a monotone steady clock, and whatever the
  system clock is set to, the grants of any stretch without a reset number at most `max_tokens` plus one
  for each refill interval (`WindowBound`); on any UTC day, if the days do not go back, at most
  `daily_limit` (`DailyQuota`).
- **HTTP gets are bounded by one more.** The client keeps the invariant that every get, each retry
  included, left after an acquisition of its own and before the next one. So the gets in any window number
  at most `max_tokens + 1 + floor(length / interval)` (`RequestsInWindow`), and those on a UTC day at most
  `daily_limit + 1` (`RequestsPerDay`). The one is there exactly when the window or the day has all the
  acquisitions it can have, a get of it was overdue at its start and none is left over at its end; every
  configuration has runs that meet one of the two bounds (`LateGet`).
- **The calendar is a bijection** between valid dates and a contiguous interval of integers that
  advances by one with every day, and dates, texts and day numbers convert into each other without loss.
- **The cache refines a recency list**, never evicts a key that was recently used, and a larger cache
  hits whatever a smaller one hits.
- **Printed tables parse back**, and on arbitrary text the two scanners' behaviour is characterised.
- **URLs determine their parameters** up to an absent list against an empty one.

## Modelling choices

- Integers are unbounded, with `Int32`, `UInt16` and `UInt8` as subset types: every store into one of
  them is proved to be in range, so no narrowing cast or 8-bit counter ever loses a value.
- Clock readings are integers in nanoseconds. Between two operations each clock advances by any
  amount, and a sleep advances both by at least what was requested. The steady clock never goes back. The
  system clock may be set, to any time and any finite number of times; contracts about days say so
  (`Env.corrections`). Readings beyond 64 bits are not modelled; the deadline of a bounded wait saturates at
  the largest 64-bit value as in the code.
- An HTTP get leaves some time after the call, and its reading is taken then.
- The sum of a day number and a count of days is an unbounded integer. The count type of
  `std::chrono::days` is only guaranteed 25 bits, and is `int` in some standard libraries: there
  `add_days` with a count near the limits of int32 overflows before the range check (src/core/date_range.cpp:99).
  `split_date_range` only adds less than the difference of two valid dates, or one day.
- Each locked method is one atomic step taking its own clock readings.
- The server is an arbitrary function of the request number and the URL. The JSON decoder and the reader
  of error bodies are arbitrary functions of the body (`Decoder`).
- The backoff is computed over reals; a non-finite policy value is one extra constructor. The jitter
  draw is any value of its range.
- Exceptions are results. `Put(…, fails)` is a store that throws; for an existing key, assigning the
  value is taken to leave the entry unchanged when it throws.
- `std::list` is a sequence of nodes with identities, and an iterator is an identity.
- `char` data is a sequence of characters with codes below 256.

## Where the code differs from what is written about it

- With `max_days = 365` a full chunk spans 366 dates: `max_days` is a difference of dates, not their
  number, while the comments in tests/test_date_range.cpp speak of 365 days for each chunk (`SplitIsPartition`).
- include/ncei/rate_limit.hpp documents 0 as "no limit" for the daily limit; the code treats every value
  at or below 0 so.
- A fetch that succeeds may be incomplete: pages shorter than their metadata says, empty ones included,
  are accepted without an error, whether or not they claim to have more (`ChunkIsComplete`).
- One get more than the daily limit may leave on a day, because the quota is taken at the acquisition and
  the get leaves later (`LateGet`, `TwoGetsOnOneDay`).
- An absent list parameter and an empty one give the same URL; nothing else does (`DataUrlsTellApart`,
  `RequestUrlsTellApart`).
- Text between a closing quote and the next delimiter is neither refused nor appended to the field: it
  becomes further fields (`TextAfterClosingQuote`).

## Model

| member | source | states |
|---|---|---|
| Calendar.DayNumberMonotone | src/core/date_range.cpp:12-24 | dates are ordered as their day numbers, and equal exactly when these are |
| Calendar.DayNumberOfNextDay | src/core/date_range.cpp:12-24 | the day count advances by one with every calendar day, the successor being defined from month lengths alone; it leaves the supported years only after 9999-12-31 |
| Calendar.DayNumberAnchors | src/core/date_range.cpp:100-101 | the day numbers of the first day, the epoch and the last day of the supported range |
| Calendar.MonthLengths | src/core/date_range.cpp:17-22 | the month lengths of common and leap years, and the leap rule |
| Calendar.KnownDays | src/core/date_range.cpp:12-24 | the day numbers of days around leap days of a leap, two century and a common year |
| Calendar.FromSysDays | src/core/date_range.cpp:26-33 | the result is a valid date with the given day number, for every number of the interval |
| Calendar.CalendarBijection | src/core/date_range.cpp:12-33 | valid dates and the integers of the interval correspond one to one |
| Calendar.ParseOfFormat | src/core/date_range.cpp:37-59 | formatting a valid date and parsing the text gives the date back |
| Calendar.FormatOfParse | src/core/date_range.cpp:37-59 | every accepted text is canonical; a minus sign accepted by the integer reader never survives the range check |
| Calendar.ParseIsInverseOfFormat | src/core/date_range.cpp:37-59 | a text parses to a date if and only if it is that valid date's format |
| Calendar.DateLayout | src/core/date_range.cpp:56-59 | year, month and day stand in this order, four, two and two digits wide, with hyphens between |
| Calendar.ParseErrors | src/core/date_range.cpp:37-54 | which texts are refused, and with which error: that of the first check that fails |
| Calendar.AddDaysMoves | src/core/date_range.cpp:96-107 | adding days succeeds if and only if the sum stays in years 1..9999, raises only the overflow error otherwise, and moves by exactly that many days |
| Calendar.AddDaysOfDaysBetween | src/core/date_range.cpp:61-68 | adding the difference of two dates to the first gives the second; the difference fits int32 and is 0 only for equal texts |
| Calendar.AddDaysComposes | src/core/date_range.cpp:96-107 | two moves are one move by the sum, including when the second leaves the range |
| Calendar.DayErrors | src/core/date_range.cpp:56-107 | which error each operation raises for dates or components that are refused |
| DateRange.SplitDateRange | src/core/date_range.cpp:74-94 | the loop returns the closed-form list of chunks, or the error of the first failing check; it terminates for every chunk size |
| DateRange.SplitLoop | src/core/date_range.cpp:80-93 | the loop alone: chunk i is the i-th block of max_days+1 dates; no date arithmetic in it can fail |
| DateRange.SplitIsPartition | src/core/date_range.cpp:74-94 | chunks run from start to end, each begins the day after the previous ends, all but the last have max_days+1 dates, and their number is the rounded-up quotient |
| DateRange.SplitErrors | src/core/date_range.cpp:74-94 | exactly which inputs are refused, and with which error; the overflow error never escapes |
| DateRange.SplitTiles | src/core/date_range.cpp:74-94 | the chunks tile the days start..end |
| DateRange.TilesCoverOnce | src/core/date_range.cpp:74-94 | tiling means that every day of the range lies in exactly one chunk and any other day in none |
| Pagination.NextOffsetIsExact | include/ncei/pagination.hpp:23-32 | for any int32 metadata, exactly when a page has more; then it names the unclamped next offset, larger than its own and at most the count; and the clamped value otherwise |
| FetchAll.ChunkAdvances | src/api/cdo_client.cpp:374-405 | against any server the offsets of a chunk start at the first and strictly increase, each the one the page before it named |
| FetchAll.ChunkEnds | src/api/cdo_client.cpp:374-405 | against any server a chunk ends by the server's error, the no-progress error or a last page; exactly when each |
| FetchAll.RunExplained | src/api/cdo_client.cpp:363-408 | against any server a success holds all records of all replies in order; a failure has the error of the last call, the only one that failed, or is the no-progress error of a last page that promised more and named no later offset |
| FetchAll.RunRequests | src/api/cdo_client.cpp:378-385 | every request of a run asks for a page of its query on one of its chunks, from offset 1 on, with the limit given or else 1000 |
| FetchAll.ChunksAre | src/api/cdo_client.cpp:367-367 | the chunks are those of a difference of 365 days, and all but the last span exactly that |
| FetchAll.RefusedDates | src/api/cdo_client.cpp:366-371 | refused dates end the fetch before any request, as an invalid request with the text of the exception |
| FetchAll.HonestPageStep | include/ncei/pagination.hpp:23-32 | an honest page leads exactly to the first record it does not hold, or is the last one |
| FetchAll.HonestChunk | src/api/cdo_client.cpp:374-405 | the pages of a chunk concatenate to what the server lists for its range, whatever page sizes it chooses |
| FetchAll.HonestCallCount | src/api/cdo_client.cpp:374-405 | with one page size a chunk takes the least number of calls that holds its records |
| FetchAll.HonestRanges | src/api/cdo_client.cpp:373-406 | the run succeeds if and only if no call failed, and then returns the chunks' listings in order |
| FetchAll.TilesConserve | src/api/cdo_client.cpp:363-408 | over tiled ranges no record is lost and none doubled |
| FetchAll.TilesOrdered | src/api/cdo_client.cpp:363-408 | if each chunk is listed in date order the whole result is in date order |
| FetchAll.FetchAllExact | src/api/cdo_client.cpp:363-408 | fetch-all against a server honest about the calls of the run succeeds exactly when no call failed and then returns exactly the records dated start..end, each as often as stored, in chunk order, and in date order if each chunk is |
| FetchAll.FetchAllIsOneShot | src/api/cdo_client.cpp:363-408 | for a date-ordered store whose chunks are listed in order, the result is the very sequence of its records dated start..end |
| Completeness.CountedStep | include/ncei/pagination.hpp:23-32 | consistent metadata of one page: where the loop goes from it, and how many records it has room for |
| Completeness.ChunkIsComplete | src/api/cdo_client.cpp:374-405 | against pages that echo offset and count and send no more than they have room for, a chunk succeeds if and only if no call failed, never holds more than is counted, and holds all of it if and only if every page was full |
| Completeness.RunIsComplete | src/api/cdo_client.cpp:363-408 | the same of the whole run, against the sum of the counts of its chunks |
| Completeness.HonestPageIsFull | include/ncei/pagination.hpp:23-32 | honest pages are counted and full |
| Completeness.EmptyPageEndsChunk | src/api/cdo_client.cpp:398-401 | an empty page that promises more: a success with none of a thousand records |
| Completeness.EmptyLastPage | src/api/cdo_client.cpp:398-401 | an empty last page: a success with none of five hundred records |
| Completeness.ShortPage | src/api/cdo_client.cpp:388-404 | a short page before the last: a success with six of thirty records |
| PagedStore.ChunkOfStore | src/api/cdo_client.cpp:374-405 | against a concrete store paged by any fixed size, a chunk yields exactly what the store holds for its range |
| PagedStore.FetchAllOfStore | src/api/cdo_client.cpp:363-408 | against that server, with nothing assumed of its replies, fetch-all succeeds on every valid range with exactly the records dated start..end, in the store's order when that is by date |
| Client.CDOClient.FetchPages | src/api/cdo_client.cpp:374-405 | the page loop does what the specification does with the replies received so far, for every server that agrees with them |
| Client.CDOClient.GetDataAll | src/api/cdo_client.cpp:363-408 | the nested loops return the specified run on the replies recorded; every call is accounted for by its attempts, the gets sent are theirs in order, and a refusal that ends the run is justified |
| Client.CDOClient.GetData | src/api/cdo_client.cpp:351-361 | the attempts on the query's URL, answered by the server one after the other and perhaps ended by a justified refusal, form a retry trace, and the reply is the last outcome interpreted |
| Client.Interpreted | src/api/cdo_client.cpp:351-361 | an error is passed on, the body of a 200 is decoded, any other status is read as an error |
| Client.CDOClient.CostOfCalls | src/api/cdo_client.cpp:351-361 | recorded calls cost at most max_attempts HTTP gets each |
| Client.CDOClient.DoGet | src/api/cdo_client.cpp:54-69 | the attempts form a retry trace; all of them, or all but a last one refused for a spent quota or a wait that ran out, reached the server, with one acquisition for each HTTP get; the time slept is the sum of policy delays and at most 10 ms for each attempt of the limiter |
| Client.CDOClient.Operation | src/api/cdo_client.cpp:59-67 | the quota check, then at least one attempt, then the get exactly if an attempt was granted, as the first is when it finds a token and quota; a quota refusal means a quota spent on a current day, a timeout that no attempt was granted and the maximum wait is over; attempts and sleep are bounded |
| EndToEnd.WireIsHonest | src/api/cdo_client.cpp:351-361 | a server honest about the pages of one query as it reads them from URLs is honest about every request of its run; of other queries, ranges, limits and offsets nothing is assumed |
| EndToEnd.GetDataAllIsExact | src/api/cdo_client.cpp:363-408 | with such a server a success is the chunks' listings in order, together exactly the stored records dated start..end, in date order if the listings are; it succeeds exactly when the range is valid and no call failed, and fails with the error of the last call |
| EndToEnd.TracedIsFromWeb | src/api/cdo_client.cpp:351-361 | a recorded success is the server's answer to the last get of its own call |
| EndToEnd.ClientFetchIsExact | src/api/cdo_client.cpp:363-408 | the same for the client object, where success and error are decided by what the attempts of the calls came to |
| EndToEnd.PagingServerIsHonest | src/api/cdo_client.cpp:363-408 | a server that pages other records for every query, by sizes of its choice, and answers any offset or none, is honest about each query |
| EndToEnd.AnswersWithoutOffset | src/api/cdo_client.cpp:133-134 | that server also answers the query sent without an offset, as get_data sends it when none is set |
| EndToEnd.RequestsOverLife | src/api/cdo_client.cpp:54-69 | all HTTP gets of a client, retries included, are at most its initial tokens plus one for each interval since construction, and at most max_tokens plus one for each interval since its first attempt |
| EndToEnd.RequestsInWindow | src/api/cdo_client.cpp:54-69 | the HTTP gets that left in any window of steady time number at most max_tokens + 1 + floor(length/interval); they exceed the bound on acquisitions if and only if the window has all of these, one get was overdue at its start and none is left over at its end |
| EndToEnd.RequestsPerDay | src/api/cdo_client.cpp:54-69 | as long as the system clock was not set, the HTTP gets that left on a UTC day number at most daily_limit + 1, and exceed daily_limit if and only if the quota was granted in full, one get was overdue at midnight and none was left over at the next |
| Pacing.GrantsApart | src/core/rate_limit.cpp:32-72 | between the i-th and the j-th grant of a run, these included, lie at most max_tokens + floor(time/interval) grants |
| Pacing.BurstGrants | src/core/rate_limit.cpp:54-72 | of n attempts at one instant as many are granted as the bucket and the day still hold |
| Pacing.StartIsFull | src/core/rate_limit.cpp:18-21 | a limiter just made or reset shows its initial tokens and the whole quota, and grants as many attempts at that instant as both allow |
| Pacing.GrantsInWindow | src/core/rate_limit.cpp:32-72 | the grants of any window of time number at most max_tokens + floor(length/interval) |
| Pacing.Account | src/api/cdo_client.cpp:59-67 | the gets of a window and those left over are its grants and those overdue |
| Pacing.GetsInWindow | src/api/cdo_client.cpp:59-67 | gets that alternate with the grants of a run: the bound on any window, and exactly when it exceeds that of the grants |
| Pacing.GetsOnDay | src/api/cdo_client.cpp:59-67 | the same for a day and the daily limit |
| Pacing.LateGet | src/api/cdo_client.cpp:59-67 | every configuration has a run with one late get and a burst of n grants that makes n + 1 gets at one instant of one day: the window bound is met unless the daily limit cuts the burst short, and then the daily bound is |
| Pacing.TwoGetsOnOneDay | src/api/cdo_client.cpp:59-67 | with one token and one request a day: two gets at one instant of one day |
| TokenBucket.SanitizedIsSane | src/core/rate_limit.cpp:8-15 | sanitizing makes any configuration usable and changes exactly the unusable ones |
| TokenBucket.SanitizedValues | src/core/rate_limit.cpp:8-15 | what replaces unusable values: one token, a full bucket, 200 ms; all else is kept |
| TokenBucket.EarnedIsFloor | src/core/rate_limit.cpp:38-43 | two truncating divisions are one floor of elapsed time over the interval |
| TokenBucket.RefillPotential | src/core/rate_limit.cpp:32-52 | a refill never raises tokens plus elapsed time, keeps it exactly unless the bucket fills up, leaves it at most full, and keeps the invariant |
| TokenBucket.RefillHasNoDrift | src/core/rate_limit.cpp:32-52 | refilling at two instants is refilling at the later one alone |
| TokenBucket.AvailableIsWhatRefillLeaves | src/core/rate_limit.cpp:110-119 | the observer reports the count a refill would leave |
| TokenBucket.AvailableClosedForm | src/core/rate_limit.cpp:110-119 | that count is min(tokens + floor(elapsed/interval), max_tokens) |
| TokenBucket.AttemptCost | src/core/rate_limit.cpp:54-72 | a granted attempt lowers both observers by one, a refused one by nothing, whatever the system clock shows |
| TokenBucket.ObserversForetell | src/core/rate_limit.cpp:54-72 | on equal readings an attempt succeeds if and only if both observers are positive |
| TokenBucket.NewDay | src/core/rate_limit.cpp:23-30 | on a new day the whole quota is back, and an attempt is granted if and only if a token is available |
| Environment.DayIs | src/core/rate_limit.cpp:23-26 | a day is 24 hours of the system clock, counted from the epoch |
| TokenBucket.RunKeepsInv | src/core/rate_limit.cpp:32-72 | the invariant holds in every state of every run, on any readings of either clock |
| TokenBucket.RefusedTry | src/core/rate_limit.cpp:54-72 | an attempt is refused if and only if the quota of the day is spent, or the bucket is empty and the next token is not yet due; a refusal changes nothing but the day |
| TokenBucket.GrantsSpendPotential | src/core/rate_limit.cpp:32-72 | grants of a run are bounded by tokens held plus time passed, on a monotone steady clock |
| TokenBucket.WindowBound | src/core/rate_limit.cpp:32-72 | in any window without reset, grants are at most max_tokens + floor(length/interval), on a monotone steady clock and any system clock |
| TokenBucket.DailyQuota | src/core/rate_limit.cpp:23-72 | with a positive limit and days that do not go back, grants on one UTC day never exceed it between resets |
| RateLimiter.RateLimiter.constructor | src/core/rate_limit.cpp:18-21 | the object starts with the initial tokens of the sanitized configuration, no request used, and current readings |
| RateLimiter.RateLimiter.CheckDailyReset | src/core/rate_limit.cpp:23-30 | the new state is the day-reset state |
| RateLimiter.RateLimiter.Refill | src/core/rate_limit.cpp:32-52 | the new state is the refilled one; no cast loses a value |
| RateLimiter.RateLimiter.TryAcquire | src/core/rate_limit.cpp:54-72 | one step of the state machine on current readings, appended to the history |
| RateLimiter.RateLimiter.Acquire | src/core/rate_limit.cpp:74-86 | always returns, even if the system clock is set now and then; without a maximum wait it returns true after 10 ms of sleep for each refusal, with one it returns false only after that wait, and asks to sleep no longer; one grant, made in the meantime, when it returns true and none otherwise |
| RateLimiter.RateLimiter.AcquireFor | src/core/rate_limit.cpp:88-108 | at least one attempt, at most ceil(wait/10ms)+1; false only at the deadline; the sleep asked for is at most the wait |
| RateLimiter.DeadlineSaturates | src/core/rate_limit.cpp:88-95 | the deadline never overflows, is not before the requested time unless it saturates, is less than a millisecond after it, and is exact away from the limit |
| RateLimiter.AttemptsAre | src/core/rate_limit.cpp:96-107 | the bound on attempts is ceil(wait/10ms)+1 |
| RateLimiter.RateLimiter.AvailableTokens | src/core/rate_limit.cpp:110-119 | what the specification's observer gives on the current reading |
| RateLimiter.RateLimiter.DailyRequestsRemaining | src/core/rate_limit.cpp:121-134 | what the specification's observer gives on a day read during the call |
| RateLimiter.RateLimiter.Reset | src/core/rate_limit.cpp:136-142 | back to the initial tokens and no request used, with current readings |
| Retry.CalculateRetryDelay | include/ncei/retry.hpp:59-83 | the capped loop, jitter and conversion give the closed form, for any multiplier |
| Retry.PolicyValues | include/ncei/retry.hpp:61-73 | what a policy value stands for when it is negative, too large or not finite |
| Retry.BackoffSteps | include/ncei/retry.hpp:61-71 | the first delay is the initial one clamped to 0..max_delay, each further one is the one before times the multiplier under the cap |
| Retry.DelayIs | include/ncei/retry.hpp:72-83 | the delay is the jittered backoff in whole milliseconds, at most max_delay |
| Retry.CappedStep | include/ncei/retry.hpp:69-71 | capping after each step equals capping the geometric progression once |
| Retry.DelayRange | include/ncei/retry.hpp:59-83 | every delay lies in 0..max(max_delay, 0), for any jitter draw |
| Retry.DelayGrows | include/ncei/retry.hpp:59-83 | without jitter and with multiplier at least one, delays never shrink |
| Retry.TraceLength | include/ncei/retry.hpp:87-112 | the operation runs min(max_attempts, first final outcome) times and its last outcome is returned, or the fixed error when no attempt is allowed |
| Retry.Retried | include/ncei/retry.hpp:39-56 | which statuses and errors are retried, and under which flag |
| Retry.RefusalsAreFinal | include/ncei/retry.hpp:51-56 | quota and rate-limit refusals are retried under no policy |
| Retry.TotalOfPauses | include/ncei/retry.hpp:87-112 | the delays slept in a run of attempts add up to at most their number times max(max_delay, 0), for any jitter draws |
| Recency.RunKeeps | include/ncei/cache.hpp:27-94 | in every reachable state no two slots have the same key, and the capacity is kept |
| Recency.HitIsLatest | include/ncei/cache.hpp:27-77 | in every configuration a hit returns the value last put for the key since its last invalidation, not older than the time to live |
| Recency.ExpiredGetInvalidates | include/ncei/cache.hpp:36-42 | a get that finds its key expired misses and leaves the cache in which the key was invalidated: gone, one smaller, all other slots at their place |
| Recency.RecentlyUsedStays | include/ncei/cache.hpp:27-77 | a key put or hit stays while fewer than max_entries other keys are got or stored, failing puts not counting, and a get hits exactly until it expires |
| Recency.EvictionIsExact | include/ncei/cache.hpp:50-77 | under puts alone a key is evicted exactly by the max_entries-th distinct other key |
| Recency.EvictionCountsCached | include/ncei/cache.hpp:27-77 | a put evicts a key exactly when, with the key put, max_entries other keys used since are still cached; expired keys that were looked up do not count |
| Recency.StepRelated | include/ncei/cache.hpp:27-94 | the invariant between a smaller and a larger cache is kept by every operation |
| Recency.LargerCacheHits | include/ncei/cache.hpp:27-94 | whatever a smaller cache hits a larger one hits, with the same value |
| LruCache.AgreeMeaning | include/ncei/cache.hpp:103-117 | agreement of map and list: same keys, each once, each entry pointing at its own node |
| LruCache.LruCache.constructor | include/ncei/cache.hpp:24-24 | an empty cache in which map and list agree |
| LruCache.LruCache.Get | include/ncei/cache.hpp:27-47 | the step of the recency list, an expired entry being removed, and its hit |
| LruCache.LruCache.Put | include/ncei/cache.hpp:50-77 | the step of the recency list; a failure is reported exactly if the cache stores at all, and leaves it unchanged |
| LruCache.LruCache.Evict | include/ncei/cache.hpp:73-76 | the eviction loop keeps the max_entries most recent slots |
| LruCache.LruCache.Invalidate | include/ncei/cache.hpp:80-87 | removes that key and no other |
| LruCache.LruCache.Clear | include/ncei/cache.hpp:90-94 | leaves nothing |
| LruCache.LruCache.Size | include/ncei/cache.hpp:97-100 | the number of slots, at most max_entries |
| Csv.NextRecord | src/core/csv_parser.cpp:7-30 | the look-ahead on doubled quotes equals toggling at every quote; line endings are stripped once |
| Csv.ParseLine | src/core/csv_parser.cpp:35-85 | the index-driven scanner computes the recursive field list, with a comma or a blank as the delimiter says |
| Csv.ParseHeader | src/core/csv_parser.cpp:87-90 | the fields of the first record, for either delimiter |
| Csv.Parse | src/core/csv_parser.cpp:92-102 | the rows of the text, blank lines left out, for either delimiter |
| CsvRoundTrip.QuotedRoundTrip | src/core/csv_parser.cpp:43-61 | a quoted field is read back to its own closing quote, whatever its text |
| CsvRoundTrip.LineRoundTrip | src/core/csv_parser.cpp:35-85 | the field splitter recovers every printed line |
| CsvRoundTrip.RowRoundTrip | src/core/csv_parser.cpp:7-30 | the record splitter cuts a printed row exactly after its line ending |
| CsvRoundTrip.TableRoundTrip | src/core/csv_parser.cpp:92-102 | parsing a printed table returns the table, for comma, blank and any other delimiter, and any choice of optional quotes and line endings |
| CsvRoundTrip.FirstBreak | src/core/csv_parser.cpp:7-30 | on any text the first record ends with the first line feed after an even number of quotes |
| CsvRoundTrip.RecordsPartition | src/core/csv_parser.cpp:92-102 | on any text the raw records concatenate to the text and the rows are those of the non-blank ones |
| CsvRoundTrip.ParseConcat | src/core/csv_parser.cpp:92-102 | parsing distributes over concatenation at line feeds outside quotes |
| CsvRoundTrip.QuoteFreeLine | src/core/csv_parser.cpp:68-80 | without quotes, fields are what lies between delimiters and joining them restores the line |
| CsvRoundTrip.BlankLineIsDropped | src/core/csv_parser.cpp:92-102 | a blank line is no row, so a lone empty field survives only quoted |
| CsvRoundTrip.StripLaws | src/core/csv_parser.cpp:22-28 | a record loses one line feed and then one carriage return, and no more |
| CsvRoundTrip.UnclosedQuote | src/core/csv_parser.cpp:43-61 | a quote that is never closed takes the rest of the line and of the text into its field |
| CsvRoundTrip.TextAfterClosingQuote | src/core/csv_parser.cpp:62-68 | text after a closing quote becomes further fields |
| CsvRoundTrip.HeaderIsFirstRow | src/core/csv_parser.cpp:87-102 | the header is the first row unless the first line is blank |
| Url.Encode | src/url.hpp:5-19 | the loop computes the percent-encoding |
| Url.DecodedOfEncoded | src/url.hpp:5-19 | decoding undoes encoding, for every byte string |
| Url.EncodedAlphabet | src/url.hpp:5-19 | an encoded value holds unreserved characters and percent signs only |
| Url.EncodedUnreserved | src/url.hpp:9-11 | a value of unreserved characters is sent unchanged |
| Url.UnreservedAre | src/url.hpp:9-11 | exactly which characters are sent as they are |
| Url.ReservedIsHex | src/url.hpp:12-15 | any other byte is sent as a percent sign and two upper-case hexadecimal digits |
| Numerals.ReadOfDecimalText | src/api/cdo_client.cpp:128-131 | printed integers, negative ones included, read back |
| Numerals.Samples | src/api/cdo_client.cpp:128-131 | samples of decimal text: most significant digit first, no padding, a minus sign in front |
| Query.ReadOfUrl | src/api/cdo_client.cpp:71-140 | cutting a built URL after its base and splitting the rest at the delimiters gives exactly the present fields, in order |
| Query.BuildListQuery | src/api/cdo_client.cpp:71-108 | the appends build the URL of the present fields |
| Query.EncodedInt | src/api/cdo_client.cpp:77-80 | a printed integer is encoded to itself, so encoding it makes no difference |
| Query.BuildDataQuery | src/api/cdo_client.cpp:110-140 | the same for the data request, with its repeated data-type field |
| Query.BuildRequestQuery | src/api/data_service_client.cpp:56-100 | the same for the Access Data Service, with its comma-joined lists |
| UrlText.ListUrlText | src/api/cdo_client.cpp:71-108 | the URL of every list request, written out with its parameter names in order |
| UrlText.DataUrlText | src/api/cdo_client.cpp:110-140 | the URL of every data request, written out likewise |
| UrlText.RequestUrlText | src/api/data_service_client.cpp:56-100 | the URL of every Access Data Service request, with its names, booleans and format words |
| QueryInverse.ListQueryInverse | src/api/cdo_client.cpp:71-108 | every list request is read back from its URL |
| QueryInverse.DataQueryInverse | src/api/cdo_client.cpp:110-140 | every data request is read back from its URL, an empty list as an absent one |
| QueryInverse.ListReadable | src/api/data_service_client.cpp:67-80 | a non-empty list is recovered by splitting at commas before decoding |
| QueryInverse.RequestQueryInverse | src/api/data_service_client.cpp:56-100 | every Access Data Service request is read back from its URL, empty lists as absent |
| QueryInverse.ListUrlsTellApart | src/api/cdo_client.cpp:71-108 | two list requests share a URL if and only if they are equal |
| QueryInverse.DataUrlsTellApart | src/api/cdo_client.cpp:110-140 | two data requests share a URL if and only if they differ at most in an absent against an empty list |
| QueryInverse.RequestUrlsTellApart | src/api/data_service_client.cpp:56-100 | the same for Access Data Service requests |

## Left out

- The libcurl transport: an HTTP get is an arbitrary function of request number and URL.
- JSON decoding and error-body parsing: arbitrary functions of the body.
- Floating-point field parsing and the row filters of the climate-index and data-point models: foreign number parsing and one-branch rules.
- Threads and mutexes: each locked method is one atomic step; the polling loops and the client are those of a single caller.
- System clocks that are set: the bounds for a UTC day assume that the day does not decrease; everything else allows it.
- IEEE rounding in the backoff and in the cache's age check: reals and integers instead.
- The hash function and NaN equality of `CoordinateKey`: keys are compared by equality.
- Moved-from clients, the endpoint methods that only build a path, `MonitoringClient`, HTTP headers and the enum-to-string tables other than the response format.
- The no-limiter callers of the retry loop (`RetryingClient`, `DataServiceClient::do_get`): the lemmas on retry traces are stated for any operation.
- Metadata that changes its count from page to page or echoes another offset: only the theorems for any server apply.
- `date_range_exceeds`, `ScopedRateLimit` and the configuration getters: one comparison or one call each.
- Reserving string capacity and moving records: no effect on values.

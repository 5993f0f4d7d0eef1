/** The retry policy: what is retried, after which delay, how often (include/ncei/retry.hpp). */
module Retry {
  import opened Core
  import opened Environment

  // A C++ double as far as the backoff looks at it: a real number, or one of the values that
  // std::isfinite rejects.
  datatype Double = Finite(value: real) | NonFinite

  datatype RetryPolicy = RetryPolicy(
    initialDelay: int, maxDelay: int, backoffMultiplier: Double, jitterFactor: Double,
    maxAttempts: UInt8, retryOnNetworkError: bool, retryOnRateLimit: bool, retryOnServerError: bool)

  predicate ShouldRetry(outcome: Outcome, p: RetryPolicy) {
    match outcome
    case Ok(response) =>
      if response.status == 429 then p.retryOnRateLimit
      else p.retryOnServerError && 500 <= response.status < 600
    case Err(error) => p.retryOnNetworkError && error.code == NetworkError
  }

  /** Which outcomes are retried, and under which flag. */
  lemma Retried(status: int, body: Bytes, code: ErrorCode, message: string, p: RetryPolicy)
    ensures ShouldRetry(Ok(HttpResponse(status, body)), p) <==>
            (status == 429 && p.retryOnRateLimit) || (500 <= status <= 599 && p.retryOnServerError)
    ensures ShouldRetry(Err(Error(code, message)), p) <==> code == NetworkError && p.retryOnNetworkError
  {
  }

  // ---------------------------------------------------------------- backoff

  function RMin(a: real, b: real): real { if b < a then b else a }
  function RMax(a: real, b: real): real { if a < b then b else a }

  // The product, behind a name: proofs hide it and use the three laws below.
  function Times(a: real, b: real): real { a * b }

  lemma TimesMonotone(a: real, b: real, c: real)
    requires a <= b && 0.0 <= c
    ensures Times(a, c) <= Times(b, c) && Times(c, a) <= Times(c, b)
  {
  }

  lemma TimesUnit(a: real)
    ensures Times(a, 1.0) == a && Times(1.0, a) == a && Times(a, 0.0) == 0.0 && Times(0.0, a) == 0.0
  {
  }

  lemma TimesAssociates(a: real, b: real, c: real)
    ensures Times(a, Times(b, c)) == Times(Times(a, b), c)
  {
  }

  function Power(m: real, k: nat): real {
    if k == 0 then 1.0 else Times(Power(m, k - 1), m)
  }

  function Maximum(p: RetryPolicy): nat { Max(p.maxDelay, 0) }

  function FirstDelay(p: RetryPolicy): nat { Max(0, Min(p.initialDelay, Maximum(p))) }

  function Multiplier(p: RetryPolicy): real {
    match p.backoffMultiplier case Finite(m) => RMax(m, 0.0) case NonFinite => 1.0
  }

  function Spread(p: RetryPolicy): real {
    match p.jitterFactor case Finite(f) => RMax(0.0, RMin(f, 1.0)) case NonFinite => 0.0
  }

  function Steps(attempt: UInt8): nat { if attempt <= 1 then 0 else attempt - 1 }

  /** The delay before jitter, in closed form: a geometric progression under a cap. */
  function Backoff(attempt: UInt8, p: RetryPolicy): real {
    RMin(Times(FirstDelay(p) as real, Power(Multiplier(p), Steps(attempt))), Maximum(p) as real)
  }

  predicate IsDraw(draw: real, p: RetryPolicy) {
    1.0 - Spread(p) <= draw <= 1.0 + Spread(p)
  }

  function RetryDelay(attempt: UInt8, p: RetryPolicy, draw: real): int {
    var delay := if Spread(p) > 0.0 then Times(Backoff(attempt, p), draw) else Backoff(attempt, p);
    if delay >= Maximum(p) as real then Maximum(p) else delay.Floor
  }

  /** A delay that the policy may compute for the pause after attempt number `attempt`. */
  ghost predicate IsPause(attempt: UInt8, p: RetryPolicy, delay: int) {
    exists draw :: IsDraw(draw, p) && delay == RetryDelay(attempt, p, draw)
  }

  /** `calculate_retry_delay`: the capped loop computes the closed form. */
  method CalculateRetryDelay(attempt: UInt8, p: RetryPolicy, draw: real) returns (delay: int)
    requires IsDraw(draw, p)
    ensures delay == RetryDelay(attempt, p, draw)
  {
    hide Power;
    var maximum := Max(p.maxDelay, 0);
    var maxMs := maximum as real;
    var first := Max(0, Min(p.initialDelay, maximum));
    var multiplier := match p.backoffMultiplier case Finite(m) => RMax(m, 0.0) case NonFinite => 1.0;
    var delayMs := CappedLoop(attempt, first as real, multiplier, maxMs);
    assert delayMs == Backoff(attempt, p);
    var spread := match p.jitterFactor case Finite(f) => RMax(0.0, RMin(f, 1.0)) case NonFinite => 0.0;
    hide Backoff;
    if spread > 0.0 {
      delayMs := delayMs * draw;
    }
    if delayMs >= maxMs {
      return maximum;
    }
    delay := delayMs.Floor;
  }

  /** The loop: the cap is applied after every step. */
  method CappedLoop(attempt: UInt8, first: real, multiplier: real, maxMs: real) returns (delayMs: real)
    requires 0.0 <= first <= maxMs && 0.0 <= multiplier
    ensures delayMs == RMin(Times(first, Power(multiplier, Steps(attempt))), maxMs)
  {
    NoStep(first, multiplier, maxMs);
    hide Power, RMin, Times;
    delayMs := first;
    var i: UInt8 := 1;
    while i < attempt
      invariant 1 <= i && (i <= attempt || i == 1)
      invariant delayMs == RMin(Times(first, Power(multiplier, i - 1)), maxMs)
    {
      CappedStep(first, multiplier, i - 1, maxMs);
      delayMs := RMin(Times(delayMs, multiplier), maxMs);
      i := i + 1;
    }
  }

  lemma NoStep(first: real, m: real, cap: real)
    requires first <= cap
    ensures RMin(Times(first, Power(m, 0)), cap) == first
  {
    TimesUnit(first);
  }

  lemma {:induction false} PowerBelowOne(m: real, k: nat)
    requires 0.0 <= m
    ensures 0.0 <= Power(m, k)
    ensures m <= 1.0 ==> Power(m, k) <= 1.0
    ensures m >= 1.0 ==> Power(m, k) >= 1.0
  {
    hide Times;
    if k == 0 {
    } else {
      var q := Power(m, k - 1);
      PowerBelowOne(m, k - 1);
      TimesUnit(m);
      TimesMonotone(0.0, q, m);
      if m <= 1.0 {
        TimesMonotone(q, 1.0, m);
      }
      if m >= 1.0 {
        TimesMonotone(1.0, q, m);
      }
    }
  }

  /** Capping after each step is capping once: the cap is only met by a progression that grows. */
  lemma CappedStep(first: real, m: real, k: nat, cap: real)
    requires 0.0 <= first <= cap && 0.0 <= m
    ensures RMin(Times(RMin(Times(first, Power(m, k)), cap), m), cap) == RMin(Times(first, Power(m, k + 1)), cap)
  {
    var q := Power(m, k);
    assert Power(m, k + 1) == Times(q, m);
    PowerBelowOne(m, k);
    hide Times, Power;
    TimesAssociates(first, q, m);
    var x := Times(first, q);
    if x > cap {
      TimesUnit(first);
      TimesUnit(cap);
      if m <= 1.0 {
        TimesMonotone(q, 1.0, first);
      }
      TimesMonotone(1.0, m, cap);
      TimesMonotone(cap, x, m);
    }
  }

  /** What the fields of a policy stand for, usable or not. */
  lemma PolicyValues(p: RetryPolicy)
    ensures Maximum(p) == if p.maxDelay < 0 then 0 else p.maxDelay
    ensures p.backoffMultiplier == NonFinite ==> Multiplier(p) == 1.0
    ensures p.backoffMultiplier.Finite? ==>
              Multiplier(p) == if p.backoffMultiplier.value < 0.0 then 0.0 else p.backoffMultiplier.value
    ensures p.jitterFactor == NonFinite ==> Spread(p) == 0.0
    ensures p.jitterFactor.Finite? ==>
              Spread(p) == if p.jitterFactor.value < 0.0 then 0.0
                           else if p.jitterFactor.value > 1.0 then 1.0 else p.jitterFactor.value
  {
  }

  /**
   The backoff step by step: the first delay is the initial one, clamped to 0..max_delay; each further one
   is the one before times the multiplier, but at most max_delay. */
  lemma BackoffSteps(attempt: UInt8, p: RetryPolicy)
    requires 1 <= attempt < 255
    ensures p.initialDelay <= 0 ==> Backoff(1, p) == 0.0
    ensures 0 <= p.initialDelay <= Maximum(p) ==> Backoff(1, p) == p.initialDelay as real
    ensures p.initialDelay >= Maximum(p) ==> Backoff(1, p) == Maximum(p) as real
    ensures Backoff(attempt + 1, p) == RMin(Times(Backoff(attempt, p), Multiplier(p)), Maximum(p) as real)
  {
    var first, m, cap := FirstDelay(p) as real, Multiplier(p), Maximum(p) as real;
    NoStep(first, m, cap);
    MultiplierIsNatural(p);
    hide Power, Multiplier, Times, RMin;
    assert Steps(1) == 0 && Steps(attempt + 1) == Steps(attempt) + 1;
    CappedStep(first, m, Steps(attempt), cap);
  }

  lemma MultiplierIsNatural(p: RetryPolicy)
    ensures Multiplier(p) >= 0.0
  {
  }

  /** The delay itself: the backoff, jittered if there is jitter, in whole milliseconds, at most max_delay. */
  lemma DelayIs(attempt: UInt8, p: RetryPolicy, draw: real)
    requires IsDraw(draw, p)
    ensures var delay := if Spread(p) > 0.0 then Backoff(attempt, p) * draw else Backoff(attempt, p);
            && (delay >= Maximum(p) as real ==> RetryDelay(attempt, p, draw) == Maximum(p))
            && (delay < Maximum(p) as real ==>
                  RetryDelay(attempt, p, draw) as real <= delay < (RetryDelay(attempt, p, draw) + 1) as real)
  {
    hide Backoff;
  }

  lemma BackoffRange(attempt: UInt8, p: RetryPolicy)
    ensures 0.0 <= Backoff(attempt, p) <= Maximum(p) as real
  {
    hide Times, Power;
    var q := Power(Multiplier(p), Steps(attempt));
    PowerBelowOne(Multiplier(p), Steps(attempt));
    TimesMonotone(0.0, q, FirstDelay(p) as real);
    TimesUnit(FirstDelay(p) as real);
  }

  /** Whatever the multiplier, the jitter factor and the draw, a delay lies within 0..max_delay. */
  lemma DelayRange(attempt: UInt8, p: RetryPolicy, draw: real)
    requires IsDraw(draw, p)
    ensures 0 <= RetryDelay(attempt, p, draw) <= Maximum(p)
  {
    hide Times, Backoff;
    BackoffRange(attempt, p);
    TimesMonotone(0.0, Backoff(attempt, p), draw);
    TimesUnit(draw);
  }

  /** Without jitter and with a multiplier of at least one, later attempts never wait less. */
  lemma DelayGrows(a: UInt8, b: UInt8, p: RetryPolicy, draw: real)
    requires Spread(p) == 0.0 && Multiplier(p) >= 1.0 && a <= b
    ensures RetryDelay(a, p, draw) <= RetryDelay(b, p, draw)
  {
    hide Times, Power;
    PowerGrows(Multiplier(p), Steps(a), Steps(b));
    TimesMonotone(Power(Multiplier(p), Steps(a)), Power(Multiplier(p), Steps(b)), FirstDelay(p) as real);
    FloorGrows(Backoff(a, p), Backoff(b, p));
  }

  lemma FloorGrows(x: real, y: real)
    requires x <= y
    ensures x.Floor <= y.Floor
  {
  }

  lemma {:induction false} PowerGrows(m: real, j: nat, k: nat)
    requires m >= 1.0 && j <= k
    ensures Power(m, j) <= Power(m, k)
  {
    if j == k {
    } else {
      PowerGrows(m, j, k - 1);
      PowerBelowOne(m, k - 1);
      TimesMonotone(1.0, m, Power(m, k - 1));
      TimesUnit(Power(m, k - 1));
    }
  }

  // ------------------------------------------------------- the retry trace

  const ATTEMPTS_EXCEEDED := Error(NetworkError, "Max retry attempts exceeded")

  /**
   What `with_retry` may have done: every outcome but the last was to be retried, the last is
   returned, and it is final or used up the attempts. With no attempts allowed nothing is tried. */
  predicate RetryTrace(p: RetryPolicy, outcomes: seq<Outcome>, result: Outcome) {
    if p.maxAttempts == 0 then outcomes == [] && result == Err(ATTEMPTS_EXCEEDED)
    else
      && 1 <= |outcomes| <= p.maxAttempts
      && result == outcomes[|outcomes| - 1]
      && (forall k :: 0 <= k < |outcomes| - 1 ==> ShouldRetry(outcomes[k], p))
      && (|outcomes| == p.maxAttempts || !ShouldRetry(result, p))
  }

  /** The number of the first outcome, counted from 1, that is not to be retried; at most `bound`. */
  function FirstFinal(op: nat -> Outcome, p: RetryPolicy, from: nat, bound: nat): nat
    requires from <= bound
    decreases bound - from
  {
    if from == bound then bound
    else if !ShouldRetry(op(from), p) then from + 1
    else FirstFinal(op, p, from + 1, bound)
  }

  /** The trace is determined by the operation: min(max_attempts, first final outcome) calls. */
  lemma TraceLength(op: nat -> Outcome, p: RetryPolicy, outcomes: seq<Outcome>, result: Outcome)
    requires RetryTrace(p, outcomes, result)
    requires forall k :: 0 <= k < |outcomes| ==> outcomes[k] == op(k)
    ensures |outcomes| == FirstFinal(op, p, 0, p.maxAttempts)
    ensures p.maxAttempts > 0 ==> result == op(|outcomes| - 1)
    ensures p.maxAttempts == 0 ==> result == Err(Error(NetworkError, "Max retry attempts exceeded"))
  {
    if p.maxAttempts > 0 {
      TraceLengthFrom(op, p, outcomes, 0);
    }
  }

  lemma {:induction false} TraceLengthFrom(op: nat -> Outcome, p: RetryPolicy, outcomes: seq<Outcome>, from: nat)
    requires p.maxAttempts > 0 && from < |outcomes| && RetryTrace(p, outcomes, outcomes[|outcomes| - 1])
    requires forall k :: 0 <= k < |outcomes| ==> outcomes[k] == op(k)
    ensures FirstFinal(op, p, from, p.maxAttempts) == |outcomes|
    decreases |outcomes| - from
  {
    assert outcomes[from] == op(from);
    if from == |outcomes| - 1 {
    } else {
      TraceLengthFrom(op, p, outcomes, from + 1);
    }
  }

  /** The refusals of the limiter: final for every policy. */
  lemma RefusalsAreFinal(p: RetryPolicy, error: Error)
    requires error.code == QuotaExceeded || error.code == RateLimited
    ensures !ShouldRetry(Err(error), p)
  {
  }

  function Total(delays: seq<int>): int {
    if delays == [] then 0 else Total(delays[..|delays| - 1]) + delays[|delays| - 1]
  }

  /** Outcomes that were all to be retried: a trace that is not over. */
  predicate AllRetried(p: RetryPolicy, outcomes: seq<Outcome>) {
    forall k :: 0 <= k < |outcomes| ==> ShouldRetry(outcomes[k], p)
  }

  lemma TraceEnds(p: RetryPolicy, outcomes: seq<Outcome>, last: Outcome)
    requires AllRetried(p, outcomes) && |outcomes| + 1 <= p.maxAttempts
    requires !ShouldRetry(last, p) || |outcomes| + 1 == p.maxAttempts
    ensures RetryTrace(p, outcomes + [last], last)
  {
  }

  /** The k-th outcome is what the server sent for the path at its `from + k`-th request. */
  predicate FromServer(server: (nat, Bytes) -> Outcome, from: nat, path: Bytes, outcomes: seq<Outcome>) {
    forall k :: 0 <= k < |outcomes| ==> outcomes[k] == server(from + k, path)
  }

  /** The k-th pause is a delay of the policy for attempt k+1. */
  ghost predicate Pauses(p: RetryPolicy, delays: seq<int>) {
    && |delays| <= p.maxAttempts
    && (forall k {:trigger delays[k]} :: 0 <= k < |delays| ==> IsPause(k + 1, p, delays[k]))
  }

  lemma PauseRange(attempt: UInt8, p: RetryPolicy, delay: int)
    requires IsPause(attempt, p, delay)
    ensures 0 <= delay <= Maximum(p)
  {
    var draw :| IsDraw(draw, p) && delay == RetryDelay(attempt, p, draw);
    DelayRange(attempt, p, draw);
  }

  /** Whatever draws were made, the pauses of a run last at most their number times the maximum delay. */
  lemma {:induction false} TotalOfPauses(p: RetryPolicy, delays: seq<int>)
    requires Pauses(p, delays)
    ensures 0 <= Total(delays) <= |delays| * Maximum(p)
  {
    hide IsPause, Maximum;
    if delays == [] {
    } else {
      var n := |delays| - 1;
      TotalOfPauses(p, delays[..n]);
      PauseRange(n + 1, p, delays[n]);
      OneMore(n, Maximum(p));
    }
  }

  lemma OneMore(n: int, m: int)
    ensures (n + 1) * m == n * m + m
  {
  }

  lemma NoPauses(p: RetryPolicy)
    ensures Pauses(p, [])
  {
  }

  lemma OnePauseMore(p: RetryPolicy, delays: seq<int>, delay: int)
    requires Pauses(p, delays) && |delays| < p.maxAttempts && IsPause(|delays| + 1, p, delay)
    ensures Pauses(p, delays + [delay]) && Total(delays + [delay]) == Total(delays) + delay
  {
    assert (delays + [delay])[..|delays|] == delays;
  }
}

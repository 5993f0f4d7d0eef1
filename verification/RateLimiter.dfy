/**
 The rate limiter object (src/core/rate_limit.cpp). Its methods are proved to be the steps of the
 token bucket, so every object state is reached by a run and every theorem about runs applies. */
module RateLimiter {
  import opened Core
  import opened Environment
  import opened TokenBucket

  const POLL_NS := 10 * NS_PER_MS

  /** The deadline of a bounded wait, saturated at the largest time point. */
  function Deadline(now: int, maxWait: int): int {
    var remaining := TruncDiv(INT64_MAX - now, NS_PER_MS);
    if maxWait <= 0 then now
    else if maxWait >= remaining then INT64_MAX
    else now + maxWait * NS_PER_MS
  }

  /**
   The deadline never overflows, never lies in the past, and is the requested one whenever that is
   a whole millisecond away from the largest time point or more. */
  lemma DeadlineSaturates(now: int, maxWait: int)
    ensures now <= INT64_MAX ==> now <= Deadline(now, maxWait) <= INT64_MAX
    ensures now + Max(maxWait, 0) * 1_000_000 <= INT64_MAX - 1_000_000 ==>
              Deadline(now, maxWait) == now + Max(maxWait, 0) * 1_000_000
    ensures Min(now + Max(maxWait, 0) * 1_000_000, 0x7fff_ffff_ffff_ffff) <= Deadline(now, maxWait)
    ensures now <= INT64_MAX ==> Deadline(now, maxWait) < now + (Max(maxWait, 0) + 1) * 1_000_000
  {
  }

  /** How many attempts fit into `wait` nanoseconds when each failed one sleeps ten milliseconds. */
  function Attempts(wait: int): int {
    (Max(wait, 0) + POLL_NS - 1) / POLL_NS + 1
  }

  /** That is ceil(wait / 10 ms) + 1. */
  lemma AttemptsAre(wait: nat, n: nat)
    ensures Attempts(wait) == n + 1 <==> (n - 1) * 10_000_000 < wait <= n * 10_000_000
  {
  }

  lemma AttemptsGrow(a: int, b: int)
    requires a <= b
    ensures Attempts(a) <= Attempts(b)
  {
  }

  /** One more attempt fits when the clock, ahead of n sleeps, has not reached the deadline. */
  lemma AnotherAttempt(n: nat, wait: int)
    ensures 1 <= Attempts(wait)
    ensures n * POLL_NS < wait ==> n + 1 < Attempts(wait)
    ensures (n + 1) * POLL_NS == n * POLL_NS + POLL_NS
  {
  }

  lemma RunOfAppend(c: Config, s: State, es: seq<Event>, e: Event)
    requires Sane(c)
    ensures Run(c, s, es + [e]) == Step(c, Run(c, s, es), e)
    ensures GrantReadings(c, s, es + [e])
            == GrantReadings(c, s, es) + if Granted(c, Run(c, s, es), e) then [Reading(e.now, e.today)] else []
  {
    RunOfConcat(c, s, es, [e]);
    assert [e][1..] == [];
  }

  class RateLimiter {
    const config: Config
    var tokens: UInt16
    var lastRefill: int
    var dailyRequestsUsed: Int32
    var dayStart: int

    // The readings at construction, how often the system clock was still going to be set then, and
    // every attempt and reset since.
    ghost const startDay: int
    ghost const startTime: int
    ghost const startCorrections: nat
    ghost var history: seq<Event>

    ghost function St(): State
      reads this
    {
      State(tokens, lastRefill, dailyRequestsUsed, dayStart)
    }

    ghost function Start(): State {
      Initial(config, startDay, startTime)
    }

    /** The fields are the state that the history leads to, and the history lies in the past. */
    ghost predicate Valid(env: Env)
      reads this, env
    {
      && Inv(config, St())
      && St() == Run(config, Start(), history)
      && Ordered(startTime, history)
      && lastRefill <= LastTime(startTime, history) <= env.steady
      && env.corrections <= startCorrections
      && (env.corrections == startCorrections ==> InDays(env))
    }

    /** As long as the system clock was not set, the days of the history are in order and past. */
    ghost predicate InDays(env: Env)
      reads this, env
    {
      && DaysOrdered(startDay, history)
      && dayStart == LastDay(startDay, history) <= DayOfClock(env.system)
    }

    constructor (c: Config, env: Env)
      modifies env
      ensures Valid(env) && config == Sanitized(c) && history == [] && env.OnlyTimePassed()
      ensures old(env.steady) <= startTime && startCorrections == env.corrections
      ensures tokens == Sanitized(c).initialTokens && dailyRequestsUsed == 0
      ensures env.corrections == old(env.corrections) ==> DayOfClock(old(env.system)) <= startDay
    {
      config := Sanitized(c);
      tokens := Sanitized(c).initialTokens;
      var now := env.SteadyNow();
      DayMonotone(old(env.system), env.system);
      label Refilled:
      var today := env.Today();
      DayMonotone(old@Refilled(env.system), env.system);
      lastRefill, startTime := now, now;
      dailyRequestsUsed := 0;
      dayStart, startDay := today, today;
      startCorrections, history := env.corrections, [];
      SanitizedIsSane(c);
    }

    method CheckDailyReset(today: int)
      modifies `dailyRequestsUsed, `dayStart
      ensures St() == DayReset(old(St()), today)
    {
      if today > dayStart {
        dailyRequestsUsed := 0;
        dayStart := today;
      }
    }

    method Refill(now: int)
      requires Sane(config) && tokens <= config.maxTokens
      modifies `tokens, `lastRefill
      ensures St() == TokenBucket.Refill(config, old(St()), now)
    {
      if tokens >= config.maxTokens {
        lastRefill := now;
        return;
      }
      var earned := TruncDiv(TruncDiv(now - lastRefill, NS_PER_MS), config.refillInterval);
      if earned <= 0 {
        return;
      }
      var total := tokens + earned;
      if total >= config.maxTokens {
        tokens := config.maxTokens;
        lastRefill := now;
      } else {
        tokens := total;
        lastRefill := lastRefill + earned * (config.refillInterval * NS_PER_MS);
      }
    }

    ghost method Record(e: Event, before: State, env: Env)
      requires Inv(config, before) && before == Run(config, Start(), history)
      requires Ordered(startTime, history)
      requires before.lastRefill <= LastTime(startTime, history) <= e.now <= env.steady
      requires env.corrections <= startCorrections
      requires env.corrections == startCorrections ==>
                 && DaysOrdered(startDay, history)
                 && before.dayStart == LastDay(startDay, history) <= e.today <= DayOfClock(env.system)
      requires St() == Step(config, before, e)
      modifies `history
      ensures Valid(env) && history == old(history) + [e]
    {
      StepKeepsInv(config, before, e);
      RunOfAppend(config, Start(), history, e);
      OrderedAppend(startTime, history, e);
      if env.corrections == startCorrections {
        DaysOrderedAppend(startDay, history, e);
      }
      history := history + [e];
    }

    /** `try_acquire`: one step on the readings it takes, recorded as `e`. */
    method TryAcquire(env: Env) returns (ok: bool, ghost e: Event)
      requires Valid(env)
      modifies this, env
      ensures Valid(env) && env.OnlyTimePassed() && env.asked == old(env.asked)
      ensures e.Try? && e.now == env.steady && history == old(history) + [e]
      ensures env.corrections == old(env.corrections) ==>
                DayOfClock(old(env.system)) <= e.today <= DayOfClock(env.system)
      ensures ok == Granted(config, old(St()), e) && St() == Step(config, old(St()), e)
    {
      ghost var before := St();
      var today := env.Today();
      DayMonotone(old(env.system), env.system);
      label Read:
      CheckDailyReset(today);
      ok := false;
      if config.dailyLimit > 0 && dailyRequestsUsed >= config.dailyLimit {
        e := Try(today, env.steady);
      } else {
        var now := env.SteadyNow();
        DayMonotone(old@Read(env.system), env.system);
        Refill(now);
        e := Try(today, now);
        if tokens > 0 {
          tokens := tokens - 1;
          if dailyRequestsUsed < INT32_MAX {
            dailyRequestsUsed := dailyRequestsUsed + 1;
          }
          ok := true;
        }
      }
      Record(e, before, env);
    }

    method AvailableTokens(env: Env) returns (n: UInt16)
      requires Valid(env)
      modifies env
      ensures Valid(env) && env.OnlyTimePassed() && env.asked == old(env.asked)
      ensures n == TokenBucket.AvailableTokens(config, St(), env.steady)
    {
      var now := env.SteadyNow();
      DayMonotone(old(env.system), env.system);
      var earned := TruncDiv(TruncDiv(now - lastRefill, NS_PER_MS), config.refillInterval);
      n := Min(tokens + Max(earned, 0), config.maxTokens);
    }

    method DailyRequestsRemaining(env: Env) returns (n: Int32, ghost today: int)
      requires Valid(env)
      modifies env
      ensures Valid(env) && env.OnlyTimePassed() && env.asked == old(env.asked)
      ensures env.corrections == old(env.corrections) ==>
                DayOfClock(old(env.system)) <= today <= DayOfClock(env.system)
      ensures n == DailyRemaining(config, St(), today)
    {
      if config.dailyLimit <= 0 {
        return INT32_MAX, DayOfClock(env.system);
      }
      var day := env.Today();
      DayMonotone(old(env.system), env.system);
      n := if day > dayStart then config.dailyLimit else Max(config.dailyLimit - dailyRequestsUsed, 0);
      today := day;
    }

    /** Inside a polling loop: every attempt `es` since the state `s` and the history `h` was refused. */
    ghost predicate Polling(env: Env, h: seq<Event>, s: State, es: seq<Event>)
      reads this, env
    {
      && Valid(env) && history == h + es && NoReset(es)
      && GrantReadings(config, s, es) == [] && St() == Run(config, s, es)
    }

    /** The attempts `es` since then ended with a grant, on the reading `g`. */
    ghost predicate Served(env: Env, h: seq<Event>, s: State, es: seq<Event>, g: Reading)
      reads this, env
    {
      && Valid(env) && history == h + es && NoReset(es)
      && GrantReadings(config, s, es) == [g]
    }

    /** The reading was taken in the meantime. */
    twostate predicate TakenMeanwhile(env: Env, g: Reading)
      reads env
    {
      && old(env.steady) <= g.now <= env.steady
      && (env.corrections == old(env.corrections) ==>
            DayOfClock(old(env.system)) <= g.today <= DayOfClock(env.system))
    }

    /** One attempt of a polling loop, and until when it has to go on after a refusal. */
    method Poll(env: Env, ghost h: seq<Event>, ghost s: State, ghost es: seq<Event>)
      returns (ok: bool, ghost es': seq<Event>, ghost g: Reading)
      requires Polling(env, h, s, es)
      modifies this, env
      ensures env.OnlyTimePassed() && env.asked == old(env.asked) && TakenMeanwhile(env, g)
      ensures |es'| == |es| + 1 && es'[..|es|] == es && es'[|es|].now == g.now
      ensures if ok then Served(env, h, s, es', g) else Polling(env, h, s, es')
      ensures !ok ==>
                if Exhausted(config, St()) then
                  && Exhausted(config, old(St())) && dayStart == old(dayStart)
                  && (env.corrections == old(env.corrections) ==> old(env.system) < (dayStart + 1) * NS_PER_DAY)
                else lastRefill == old(lastRefill) && old(env.steady) < lastRefill + IntervalNs(config)
    {
      ghost var before := St();
      ghost var e;
      ok, e := TryAcquire(env);
      RunOfAppend(config, s, es, e);
      RefusedTry(config, before, e);
      es', g := es + [e], Reading(e.now, e.today);
    }

    /**
     `acquire`: with a maximum wait it is bounded, else it polls until it is granted. It always
     returns, whatever the state of the bucket and the quota: a refill interval or a midnight comes,
     even on a system clock that is set now and then. */
    method Acquire(env: Env) returns (ok: bool, ghost es: seq<Event>, ghost g: Reading)
      requires Valid(env)
      modifies this, env
      ensures Valid(env) && env.OnlyTimePassed()
      ensures history == old(history) + es && es != [] && NoReset(es) && old(env.steady) <= es[0].now
      ensures GrantReadings(config, old(St()), es) == if ok then [g] else []
      ensures ok ==> TakenMeanwhile(env, g)
      ensures config.maxWait.None? ==> ok
      ensures config.maxWait.Some? && !ok ==>
                env.steady >= Min(old(env.steady) + Max(config.maxWait.value, 0) * NS_PER_MS, INT64_MAX)
      ensures config.maxWait.Some? ==> |es| <= Attempts((Max(config.maxWait.value, 0) + 1) * 1_000_000)
      ensures config.maxWait.None? ==> env.asked == old(env.asked) + (|es| - 1) * 10_000_000
      ensures config.maxWait.Some? ==>
                env.asked <= old(env.asked)
                             + Min((|es| - 1) * 10_000_000, (Max(config.maxWait.value, 0) + 1) * 1_000_000)
    {
      if config.maxWait.Some? {
        ghost var begin, deadline;
        ok, es, g, begin, deadline := AcquireFor(config.maxWait.value, env);
        DeadlineSaturates(begin, config.maxWait.value);
        AttemptsGrow(deadline - begin, (Max(config.maxWait.value, 0) + 1) * 1_000_000);
        return;
      }
      ok, es, g := PollForever(env);
    }

    /** The loop of `acquire` without a maximum wait. */
    method PollForever(env: Env) returns (ok: bool, ghost es: seq<Event>, ghost g: Reading)
      requires Valid(env)
      modifies this, env
      ensures ok && Valid(env) && env.OnlyTimePassed()
      ensures history == old(history) + es && es != [] && NoReset(es) && old(env.steady) <= es[0].now
      ensures GrantReadings(config, old(St()), es) == [g] && TakenMeanwhile(env, g)
      ensures env.asked == old(env.asked) + (|es| - 1) * 10_000_000
    {
      es := [];
      hide Run, GrantReadings, Inv, Sane, IntervalNs, DayOfClock;
      StartPolling(env);
      while true
        invariant Polling(env, old(history), old(St()), es) && env.OnlyTimePassed()
        invariant es != [] ==> old(env.steady) <= es[0].now
        invariant env.asked == old(env.asked) + |es| * POLL_NS
        decreases env.corrections,
                  Exhausted(config, St()),
                  if Exhausted(config, St()) then Max((dayStart + 1) * NS_PER_DAY - env.system, 0)
                  else Max(lastRefill + IntervalNs(config) - env.steady, 0)
      {
        label Turn:
        ok, es, g := Poll(env, old(history), old(St()), es);
        if ok {
          DayMonotone(old(env.system), old@Turn(env.system));
          return;
        }
        Sleep(env, POLL_NS, old(history), old(St()), es);
      }
    }

    lemma StartPolling(env: Env)
      requires Valid(env)
      ensures Polling(env, history, St(), [])
    {
      assert history + [] == history;
    }

    method ReadClock(env: Env, ghost h: seq<Event>, ghost s: State, ghost es: seq<Event>) returns (now: int)
      requires Polling(env, h, s, es)
      modifies env
      ensures Polling(env, h, s, es) && env.OnlyTimePassed() && env.asked == old(env.asked) && now == env.steady
    {
      now := env.SteadyNow();
      DayMonotone(old(env.system), env.system);
    }

    method Sleep(env: Env, ns: int, ghost h: seq<Event>, ghost s: State, ghost es: seq<Event>)
      requires ns >= 0 && Polling(env, h, s, es)
      modifies env
      ensures Polling(env, h, s, es) && env.OnlyTimePassed()
      ensures env.steady >= old(env.steady) + ns && env.asked == old(env.asked) + ns
      ensures env.corrections == old(env.corrections) ==> env.system >= old(env.system) + ns
    {
      env.PassTime(ns);
      DayMonotone(old(env.system), env.system);
    }

    /**
     `acquire_for`: at least one attempt is made and at most ceil(wait / 10 ms) + 1, where the wait
     ends at the deadline; it gives up only once the clock has reached the deadline. */
    method AcquireFor(maxWait: int, env: Env)
      returns (ok: bool, ghost es: seq<Event>, ghost g: Reading, ghost begin: int, ghost deadline: int)
      requires Valid(env)
      modifies this, env
      ensures Valid(env) && env.OnlyTimePassed()
      ensures history == old(history) + es && es != [] && NoReset(es)
      ensures GrantReadings(config, old(St()), es) == if ok then [g] else []
      ensures ok ==> TakenMeanwhile(env, g)
      ensures old(env.steady) <= begin <= es[0].now && deadline == Deadline(begin, maxWait)
      ensures |es| <= Attempts(deadline - begin)
      ensures !ok ==> env.steady >= deadline
      ensures env.asked <= old(env.asked) + Min((|es| - 1) * 10_000_000, Max(deadline - begin, 0))
    {
      var now := env.SteadyNow();
      DayMonotone(old(env.system), env.system);
      var remaining := TruncDiv(INT64_MAX - now, NS_PER_MS);
      var until := if maxWait <= 0 then now else if maxWait >= remaining then INT64_MAX else now + maxWait * NS_PER_MS;
      begin, deadline := now, until;
      ok, es, g := PollUntil(until, env);
    }

    /** The loop of `acquire_for`. */
    method PollUntil(until: int, env: Env) returns (ok: bool, ghost es: seq<Event>, ghost g: Reading)
      requires Valid(env)
      modifies this, env
      ensures Valid(env) && env.OnlyTimePassed()
      ensures history == old(history) + es && es != [] && NoReset(es) && old(env.steady) <= es[0].now
      ensures GrantReadings(config, old(St()), es) == if ok then [g] else []
      ensures ok ==> TakenMeanwhile(env, g)
      ensures |es| <= Attempts(until - old(env.steady))
      ensures !ok ==> env.steady >= until
      ensures env.asked <= old(env.asked) + Min((|es| - 1) * 10_000_000, Max(until - old(env.steady), 0))
    {
      hide Run, GrantReadings, Inv, Sane, Attempts, DayOfClock;
      ghost var begin := env.steady;
      es := [];
      StartPolling(env);
      AnotherAttempt(0, until - begin);
      while true
        invariant Polling(env, old(history), old(St()), es) && env.OnlyTimePassed()
        invariant es != [] ==> begin <= es[0].now
        invariant Min(until, begin + |es| * POLL_NS) <= env.steady
        invariant |es| < Attempts(until - begin)
        invariant env.asked <= old(env.asked) + |es| * POLL_NS
        invariant env.asked - old(env.asked) <= Min(env.steady - begin, Max(until - begin, 0))
        decreases Max(until - env.steady, 0)
      {
        AnotherAttempt(|es|, until - begin);
        label Turn:
        ok, es, g := Poll(env, old(history), old(St()), es);
        if ok {
          DayMonotone(old(env.system), old@Turn(env.system));
          return;
        }
        var current := ReadClock(env, old(history), old(St()), es);
        if current >= until {
          return;
        }
        Sleep(env, Min(until - current, POLL_NS), old(history), old(St()), es);
      }
    }

    method Reset(env: Env)
      requires Valid(env)
      modifies this, env
      ensures Valid(env) && env.OnlyTimePassed() && env.asked == old(env.asked)
      ensures |history| == |old(history)| + 1 && old(history) == history[..|old(history)|]
      ensures history[|old(history)|].Reset?
      ensures St() == Initial(config, dayStart, lastRefill)
      ensures tokens == config.initialTokens && dailyRequestsUsed == 0
      ensures old(env.steady) <= lastRefill
      ensures env.corrections == old(env.corrections) ==> DayOfClock(old(env.system)) <= dayStart
    {
      ghost var before := St();
      tokens := config.initialTokens;
      lastRefill := env.SteadyNow();
      DayMonotone(old(env.system), env.system);
      label Refilled:
      dailyRequestsUsed := 0;
      dayStart := env.Today();
      DayMonotone(old@Refilled(env.system), env.system);
      Record(Event.Reset(dayStart, lastRefill), before, env);
    }
  }

  lemma {:induction false} OrderedAppend(now: int, es: seq<Event>, e: Event)
    requires Ordered(now, es) && LastTime(now, es) <= e.now
    ensures Ordered(now, es + [e])
    decreases |es|
  {
    if es == [] {
      assert es + [e] == [e];
    } else {
      assert (es + [e])[1..] == es[1..] + [e];
      OrderedAppend(es[0].now, es[1..], e);
    }
  }

  lemma {:induction false} DaysOrderedAppend(today: int, es: seq<Event>, e: Event)
    requires DaysOrdered(today, es) && LastDay(today, es) <= e.today
    ensures DaysOrdered(today, es + [e])
    decreases |es|
  {
    if es == [] {
      assert es + [e] == [e];
    } else {
      assert (es + [e])[1..] == es[1..] + [e];
      DaysOrderedAppend(es[0].today, es[1..], e);
    }
  }
}

/**
 The token bucket with daily quota as a timed state machine (src/core/rate_limit.cpp): each locked
 method is one step that takes its clock readings. Steady readings are in nanoseconds, days are
 the day numbers of the system clock. */
module TokenBucket {
  import opened Core
  import opened Environment

  datatype Config = Config(
    maxTokens: UInt16, refillInterval: int, initialTokens: UInt16, maxWait: Option<int>, dailyLimit: Int32)

  datatype State = State(tokens: UInt16, lastRefill: int, used: Int32, dayStart: int)

  // ------------------------------------------------------------------ steps

  function Sanitized(c: Config): Config {
    var most := Max(c.maxTokens, 1);
    c.(maxTokens := most,
       initialTokens := Min(c.initialTokens, most),
       refillInterval := if c.refillInterval <= 0 then 200 else c.refillInterval)
  }

  predicate Sane(c: Config) {
    c.maxTokens >= 1 && c.initialTokens <= c.maxTokens && c.refillInterval > 0
  }

  /** Sanitizing makes any configuration usable and leaves a usable one alone. */
  lemma SanitizedIsSane(c: Config)
    ensures Sane(Sanitized(c))
    ensures Sanitized(c) == c <==> Sane(c)
  {
  }

  /** What replaces an unusable value: one token, a full bucket, 200 milliseconds; all else is kept. */
  lemma SanitizedValues(c: Config)
    ensures var s := Sanitized(c);
            && s.maxTokens == (if c.maxTokens == 0 then 1 else c.maxTokens)
            && s.initialTokens == (if c.initialTokens > s.maxTokens then s.maxTokens else c.initialTokens)
            && s.refillInterval == (if c.refillInterval <= 0 then 200 else c.refillInterval)
            && s.maxWait == c.maxWait && s.dailyLimit == c.dailyLimit
  {
  }

  function Initial(c: Config, today: int, now: int): State {
    State(c.initialTokens, now, 0, today)
  }

  function DayReset(s: State, today: int): State {
    if today > s.dayStart then s.(used := 0, dayStart := today) else s
  }

  /** Whole refill intervals since the last refill; both divisions truncate as in C++. */
  function Earned(c: Config, s: State, now: int): int
    requires c.refillInterval > 0
  {
    TruncDiv(TruncDiv(now - s.lastRefill, NS_PER_MS), c.refillInterval)
  }

  function Refill(c: Config, s: State, now: int): State
    requires Sane(c)
  {
    if s.tokens >= c.maxTokens then s.(lastRefill := now)
    else
      var earned := Earned(c, s, now);
      if earned <= 0 then s
      else if s.tokens + earned >= c.maxTokens then s.(tokens := c.maxTokens, lastRefill := now)
      else s.(tokens := s.tokens + earned, lastRefill := s.lastRefill + earned * IntervalNs(c))
  }

  predicate Exhausted(c: Config, s: State) {
    c.dailyLimit > 0 && s.used >= c.dailyLimit
  }

  /** One `try_acquire` on the readings it takes: the new state, and whether it was granted. */
  function TryAcquire(c: Config, s: State, today: int, now: int): (State, bool)
    requires Sane(c)
  {
    var s1 := DayReset(s, today);
    if Exhausted(c, s1) then (s1, false)
    else
      var s2 := Refill(c, s1, now);
      if s2.tokens > 0 then
        (s2.(tokens := s2.tokens - 1, used := if s2.used < INT32_MAX then s2.used + 1 else s2.used), true)
      else (s2, false)
  }

  function AvailableTokens(c: Config, s: State, now: int): UInt16
    requires Sane(c)
  {
    Min(s.tokens + Max(Earned(c, s, now), 0), c.maxTokens)
  }

  function DailyRemaining(c: Config, s: State, today: int): Int32
    requires s.used >= 0
  {
    if c.dailyLimit <= 0 then INT32_MAX
    else if today > s.dayStart then c.dailyLimit
    else Max(c.dailyLimit - s.used, 0)
  }

  /** What holds in every state the limiter can be in. */
  predicate Inv(c: Config, s: State) {
    Sane(c) && s.tokens <= c.maxTokens && 0 <= s.used && (c.dailyLimit > 0 ==> s.used <= c.dailyLimit)
  }

  // ------------------------------------------------------- division by time

  function IntervalNs(c: Config): int { c.refillInterval * NS_PER_MS }

  /** For time that did not run backwards the two truncating divisions are one floor division. */
  lemma EarnedIsFloor(c: Config, s: State, now: int)
    requires Sane(c)
    ensures var e := Earned(c, s, now);
            && (now >= s.lastRefill ==>
                  e >= 0 && e * IntervalNs(c) <= now - s.lastRefill < (e + 1) * IntervalNs(c))
            && (now <= s.lastRefill ==> e <= 0)
  {
    var d, i := now - s.lastRefill, c.refillInterval;
    if d >= 0 {
      var ms := d / NS_PER_MS;
      var e := ms / i;
      DivMul(ms, i);
      assert e * i * NS_PER_MS <= ms * NS_PER_MS <= d;
      assert ms + 1 <= (e + 1) * i;
      assert d < (ms + 1) * NS_PER_MS <= (e + 1) * i * NS_PER_MS;
      assert e * IntervalNs(c) == e * i * NS_PER_MS;
      assert (e + 1) * IntervalNs(c) == (e + 1) * i * NS_PER_MS;
    } else {
      NonPositive((-d) / NS_PER_MS, i);
    }
  }

  lemma DivMul(a: int, b: int)
    requires a >= 0 && b > 0
    ensures 0 <= a / b && (a / b) * b <= a < (a / b + 1) * b
  {
    assert a == (a / b) * b + a % b;
    assert (a / b + 1) * b == (a / b) * b + b;
  }

  lemma NonPositive(ms: int, i: int)
    requires ms >= 0 && i > 0
    ensures TruncDiv(-ms, i) <= 0
  {
    DivMul(ms, i);
  }

  lemma FloorUnique(e: int, f: int, w: int, d: int)
    requires w > 0 && e * w <= d < (e + 1) * w && f * w <= d < (f + 1) * w
    ensures e == f
  {
    assert e < f ==> (e + 1) * w <= f * w;
    assert f < e ==> (f + 1) * w <= e * w;
  }

  // ------------------------------------------------------ refill, observers

  /** Whatever the clock says, a refill keeps the invariant, the day and its count, and takes no token. */
  lemma RefillKeepsInv(c: Config, s: State, now: int)
    requires Inv(c, s)
    ensures var r := Refill(c, s, now);
            Inv(c, r) && r.used == s.used && r.dayStart == s.dayStart && s.tokens <= r.tokens
  {
  }

  /**
   Refilling carries the remainder: after a refill less than one interval is left over unless the
   bucket is full. It never raises tokens + elapsed/interval, and it leaves that sum at most full. */
  lemma RefillPotential(c: Config, s: State, now: int)
    requires Inv(c, s) && s.lastRefill <= now
    ensures var r := Refill(c, s, now);
            && Inv(c, r) && r.lastRefill <= now && s.tokens <= r.tokens
            && r.tokens * IntervalNs(c) - r.lastRefill <= s.tokens * IntervalNs(c) - s.lastRefill
            && r.tokens * IntervalNs(c) + (now - r.lastRefill) <= c.maxTokens * IntervalNs(c)
            && (r.tokens < c.maxTokens ==>
                  now - r.lastRefill < IntervalNs(c)
                  && r.tokens * IntervalNs(c) - r.lastRefill == s.tokens * IntervalNs(c) - s.lastRefill)
  {
    RefillKeepsInv(c, s, now);
    if s.tokens < c.maxTokens {
      EarnedIsFloor(c, s, now);
      var w, e := IntervalNs(c), Earned(c, s, now);
      hide Earned, IntervalNs;
      PotentialStep(s.tokens, e, c.maxTokens, w, now - s.lastRefill);
    }
  }

  /** e intervals of w fit into d: moving them from elapsed time into tokens conserves the potential. */
  lemma PotentialStep(tokens: nat, e: int, most: int, w: int, d: int)
    requires w > 0 && e >= 0 && tokens < most && e * w <= d < (e + 1) * w
    ensures (tokens + e) * w - e * w == tokens * w
    ensures d - e * w < w
    ensures if tokens + e < most then (tokens + e) * w + (d - e * w) <= most * w else most * w <= tokens * w + d
  {
    MulAdd(tokens, e, w);
    MulAdd(e, 1, w);
    MulAdd(tokens + e, 1, w);
    if tokens + e < most {
      MulMono(tokens + e + 1, most, w);
    } else {
      MulMono(most, tokens + e, w);
    }
  }

  lemma MulAdd(a: int, b: int, w: int)
    ensures (a + b) * w == a * w + b * w
  {
  }

  lemma MulMono(a: int, b: int, w: int)
    requires a <= b && w >= 0
    ensures a * w <= b * w
  {
  }

  /** No drift: refilling on the way changes nothing about what a later refill leaves. */
  lemma RefillHasNoDrift(c: Config, s: State, t1: int, t2: int)
    requires Inv(c, s) && t1 <= t2
    ensures Refill(c, Refill(c, s, t1), t2) == Refill(c, s, t2)
  {
    if s.tokens < c.maxTokens {
      EarnedMonotone(c, s, t1, t2);
      var e1 := Earned(c, s, t1);
      hide Earned, IntervalNs;
      if 0 < e1 && s.tokens + e1 < c.maxTokens {
        EarnedIsFloor(c, s, t1);
        EarnedAfter(c, s, t1, t2);
        MulAdd(e1, Earned(c, s, t2) - e1, IntervalNs(c));
      }
    }
  }

  lemma EarnedMonotone(c: Config, s: State, t1: int, t2: int)
    requires Sane(c) && t1 <= t2
    ensures Earned(c, s, t1) > 0 ==> Earned(c, s, t1) <= Earned(c, s, t2)
  {
    EarnedIsFloor(c, s, t1);
    EarnedIsFloor(c, s, t2);
    var e1, e2, w := Earned(c, s, t1), Earned(c, s, t2), IntervalNs(c);
    hide Earned, IntervalNs;
    if e1 > e2 && e1 > 0 {
      MulMono(e2 + 1, e1, w);
    }
  }

  /** The intervals earned after a partial refill are the ones that refill did not use up. */
  lemma EarnedAfter(c: Config, s: State, t1: int, t2: int)
    requires Inv(c, s) && t1 <= t2
    requires s.tokens < c.maxTokens && Earned(c, s, t1) > 0 && s.tokens + Earned(c, s, t1) < c.maxTokens
    ensures Earned(c, Refill(c, s, t1), t2) == Earned(c, s, t2) - Earned(c, s, t1)
  {
    var r := Refill(c, s, t1);
    var e1, w := Earned(c, s, t1), IntervalNs(c);
    assert r.lastRefill == s.lastRefill + e1 * w;
    hide Earned, IntervalNs, Refill;
    EarnedIsFloor(c, s, t1);
    EarnedIsFloor(c, s, t2);
    EarnedIsFloor(c, r, t2);
    FloorShift(e1, Earned(c, s, t2), Earned(c, r, t2), w, t2 - s.lastRefill);
  }

  lemma FloorShift(e1: int, e2: int, e: int, w: int, d: int)
    requires w > 0 && e2 * w <= d < (e2 + 1) * w && e * w <= d - e1 * w < (e + 1) * w
    ensures e == e2 - e1
  {
    MulAdd(e1, e, w);
    MulAdd(e1 + e, 1, w);
    MulAdd(e, 1, w);
    FloorUnique(e1 + e, e2, w, d);
  }

  /** `available_tokens` is the count a refill at that moment would leave. */
  lemma AvailableIsWhatRefillLeaves(c: Config, s: State, now: int)
    requires Inv(c, s)
    ensures AvailableTokens(c, s, now) == Refill(c, s, now).tokens
  {
  }

  /** The observer's two truncating divisions are one floor division of the time since the last refill. */
  lemma AvailableClosedForm(c: Config, s: State, now: int)
    requires Inv(c, s) && s.lastRefill <= now
    ensures AvailableTokens(c, s, now)
            == Min(s.tokens + (now - s.lastRefill) / (c.refillInterval * 1_000_000), c.maxTokens)
  {
    EarnedIsFloor(c, s, now);
    PositiveInterval(c);
    DivMul(now - s.lastRefill, IntervalNs(c));
    FloorUnique(Earned(c, s, now), (now - s.lastRefill) / IntervalNs(c), IntervalNs(c), now - s.lastRefill);
  }

  /** On a new day the whole quota is there again, and nothing but tokens can be lacking. */
  lemma NewDay(c: Config, s: State, today: int, now: int)
    requires Inv(c, s) && today > s.dayStart
    ensures DailyRemaining(c, s, today) == if c.dailyLimit <= 0 then 0x7fff_ffff else c.dailyLimit
    ensures TryAcquire(c, s, today, now).1 <==> AvailableTokens(c, s, now) > 0
    ensures TryAcquire(c, s, today, now).0.dayStart == today
    ensures TryAcquire(c, s, today, now).0.used == if TryAcquire(c, s, today, now).1 then 1 else 0
  {
    RefillKeepsInv(c, DayReset(s, today), now);
    AvailableIsWhatRefillLeaves(c, s, now);
  }

  /** A refill is invisible: it changes nothing that is available now or later. */
  lemma RefillIsInvisible(c: Config, s: State, now: int, later: int)
    requires Inv(c, s) && s.lastRefill <= now <= later
    ensures AvailableTokens(c, Refill(c, s, now), later) == AvailableTokens(c, s, later)
  {
    RefillPotential(c, s, now);
    RefillHasNoDrift(c, s, now, later);
    AvailableIsWhatRefillLeaves(c, s, later);
    AvailableIsWhatRefillLeaves(c, Refill(c, s, now), later);
  }

  /** An attempt costs one token and one unit of the day's quota when granted, and nothing otherwise. */
  lemma AttemptCost(c: Config, s: State, today: int, now: int)
    requires Inv(c, s) && s.lastRefill <= now
    ensures var t := TryAcquire(c, s, today, now);
            var cost := if t.1 then 1 else 0;
            && AvailableTokens(c, t.0, now) == AvailableTokens(c, s, now) - cost
            && 0 <= t.0.used
            && (c.dailyLimit > 0 ==> DailyRemaining(c, t.0, today) == DailyRemaining(c, s, today) - cost)
  {
    var d := DayReset(s, today);
    var t := TryAcquire(c, s, today, now);
    RefillPotential(c, d, now);
    AvailableIsWhatRefillLeaves(c, s, now);
    assert AvailableTokens(c, s, now) == AvailableTokens(c, d, now);
    assert Refill(c, s, now).tokens == Refill(c, d, now).tokens;
    if t.1 {
      var r := Refill(c, d, now);
      EarnedIsFloor(c, r, now);
      EarnedIsFloor(c, t.0, now);
      assert r.tokens < c.maxTokens ==> Earned(c, r, now) == 0 by {
        RefillIsInvisible(c, d, now, now);
      }
      NothingEarnedYet(c, d, now);
    } else if !Exhausted(c, d) {
      RefillIsInvisible(c, d, now, now);
    }
  }

  /** Right after a refill no further token has been earned. */
  lemma NothingEarnedYet(c: Config, s: State, now: int)
    requires Inv(c, s) && s.lastRefill <= now
    ensures Earned(c, Refill(c, s, now), now) == 0
  {
    RefillPotential(c, s, now);
    var r, w := Refill(c, s, now), IntervalNs(c);
    EarnedIsFloor(c, r, now);
    hide Earned, IntervalNs;
    assert 0 <= now - r.lastRefill < w || r.tokens == c.maxTokens;
    if r.tokens == c.maxTokens {
      assert r.tokens * w == c.maxTokens * w;
    }
    FloorUnique(Earned(c, r, now), 0, w, now - r.lastRefill);
  }

  /** On the same readings the two observers foretell exactly whether `try_acquire` succeeds. */
  lemma ObserversForetell(c: Config, s: State, today: int, now: int)
    requires Inv(c, s)
    ensures TryAcquire(c, s, today, now).1 <==> AvailableTokens(c, s, now) > 0 && DailyRemaining(c, s, today) > 0
  {
    AvailableIsWhatRefillLeaves(c, s, now);
  }

  // ------------------------------------------------------------------- runs

  datatype Event = Try(today: int, now: int) | Reset(today: int, now: int)

  function Step(c: Config, s: State, e: Event): State
    requires Sane(c)
  {
    match e
    case Try(today, now) => TryAcquire(c, s, today, now).0
    case Reset(today, now) => Initial(c, today, now)
  }

  predicate Granted(c: Config, s: State, e: Event)
    requires Sane(c)
  {
    e.Try? && TryAcquire(c, s, e.today, e.now).1
  }

  function Run(c: Config, s: State, es: seq<Event>): State
    requires Sane(c)
    decreases |es|
  {
    if es == [] then s else Run(c, Step(c, s, es[0]), es[1..])
  }

  function Grants(c: Config, s: State, es: seq<Event>): nat
    requires Sane(c)
    decreases |es|
  {
    if es == [] then 0
    else (if Granted(c, s, es[0]) then 1 else 0) + Grants(c, Step(c, s, es[0]), es[1..])
  }

  /** The readings of the granted attempts. */
  function GrantReadings(c: Config, s: State, es: seq<Event>): seq<Reading>
    requires Sane(c)
    decreases |es|
  {
    if es == [] then []
    else
      (if Granted(c, s, es[0]) then [Reading(es[0].now, es[0].today)] else [])
      + GrantReadings(c, Step(c, s, es[0]), es[1..])
  }

  lemma {:induction false} GrantsAreCounted(c: Config, s: State, es: seq<Event>)
    requires Sane(c)
    ensures |GrantReadings(c, s, es)| == Grants(c, s, es)
    decreases |es|
  {
    if es == [] {
    } else {
      GrantsAreCounted(c, Step(c, s, es[0]), es[1..]);
    }
  }

  /** Steady readings from `now` on never decrease. Nothing is said of the system clock. */
  predicate Ordered(now: int, es: seq<Event>)
    decreases |es|
  {
    es == [] || (now <= es[0].now && Ordered(es[0].now, es[1..]))
  }

  /** System days from `today` on never decrease. Nothing is said of the steady clock. */
  predicate DaysOrdered(today: int, es: seq<Event>)
    decreases |es|
  {
    es == [] || (today <= es[0].today && DaysOrdered(es[0].today, es[1..]))
  }

  predicate NoReset(es: seq<Event>) {
    forall i :: 0 <= i < |es| ==> es[i].Try?
  }

  function LastTime(now: int, es: seq<Event>): int {
    if es == [] then now else es[|es| - 1].now
  }

  function LastDay(today: int, es: seq<Event>): int {
    if es == [] then today else es[|es| - 1].today
  }

  lemma StepKeepsInv(c: Config, s: State, e: Event)
    requires Inv(c, s)
    ensures Inv(c, Step(c, s, e))
    ensures s.lastRefill <= e.now ==> Step(c, s, e).lastRefill <= e.now
    ensures Step(c, s, e).dayStart == if e.Try? then Max(s.dayStart, e.today) else e.today
  {
    if e.Try? {
      RefillKeepsInv(c, DayReset(s, e.today), e.now);
      if s.lastRefill <= e.now {
        RefillPotential(c, DayReset(s, e.today), e.now);
      }
    }
  }

  /** The invariant holds in every state of every run: any attempts and resets, on any clock readings. */
  lemma {:induction false} RunKeepsInv(c: Config, s: State, es: seq<Event>)
    requires Inv(c, s)
    ensures Inv(c, Run(c, s, es))
    decreases |es|
  {
    if es == [] {
    } else {
      StepKeepsInv(c, s, es[0]);
      RunKeepsInv(c, Step(c, s, es[0]), es[1..]);
    }
  }

  /** On ordered steady readings the last refill never lies ahead of the clock. */
  lemma {:induction false} RunInOrder(c: Config, s: State, now: int, es: seq<Event>)
    requires Inv(c, s) && s.lastRefill <= now && Ordered(now, es)
    ensures Run(c, s, es).lastRefill <= LastTime(now, es)
    decreases |es|
  {
    if es == [] {
    } else {
      StepKeepsInv(c, s, es[0]);
      RunInOrder(c, Step(c, s, es[0]), es[0].now, es[1..]);
    }
  }

  /** On ordered days the limiter's day is that of the last event. */
  lemma {:induction false} RunOfDays(c: Config, s: State, es: seq<Event>)
    requires Inv(c, s) && DaysOrdered(s.dayStart, es)
    ensures Run(c, s, es).dayStart == LastDay(s.dayStart, es)
    decreases |es|
  {
    if es == [] {
    } else {
      StepKeepsInv(c, s, es[0]);
      RunOfDays(c, Step(c, s, es[0]), es[1..]);
    }
  }

  lemma {:induction false} RunOfConcat(c: Config, s: State, a: seq<Event>, b: seq<Event>)
    requires Sane(c)
    ensures Run(c, s, a + b) == Run(c, Run(c, s, a), b)
    ensures Grants(c, s, a + b) == Grants(c, s, a) + Grants(c, Run(c, s, a), b)
    ensures GrantReadings(c, s, a + b) == GrantReadings(c, s, a) + GrantReadings(c, Run(c, s, a), b)
    decreases |a|
  {
    if a == [] {
      assert a + b == b;
    } else {
      assert (a + b)[1..] == a[1..] + b;
      RunOfConcat(c, Step(c, s, a[0]), a[1..], b);
      var x := if Granted(c, s, a[0]) then [Reading(a[0].now, a[0].today)] else [];
      var y, z := GrantReadings(c, Step(c, s, a[0]), a[1..]), GrantReadings(c, Run(c, s, a), b);
      assert x + (y + z) == x + y + z;
    }
  }

  /** The quota of the limiter's day is spent, and that day is not over for this reading. */
  predicate QuotaSpent(c: Config, s: State, today: int) {
    Exhausted(c, s) && today <= s.dayStart
  }

  /**
   An attempt is refused exactly while the quota of the day is spent, or while the bucket is empty
   and the next token is not yet due; and a refusal changes nothing but the day. */
  lemma RefusedTry(c: Config, s: State, e: Event)
    requires Inv(c, s) && s.lastRefill <= e.now && e.Try?
    ensures Granted(c, s, e) <==>
            !QuotaSpent(c, s, e.today) && (s.tokens > 0 || s.lastRefill + IntervalNs(c) <= e.now)
    ensures !Granted(c, s, e) ==> Step(c, s, e) == DayReset(s, e.today)
  {
    var d := DayReset(s, e.today);
    assert Exhausted(c, d) <==> QuotaSpent(c, s, e.today);
    EarnedIsFloor(c, d, e.now);
    NextTokenDue(Earned(c, d, e.now), IntervalNs(c), e.now - s.lastRefill);
    RefillKeepsInv(c, d, e.now);
  }

  lemma NextTokenDue(e: int, w: int, d: int)
    requires w > 0 && e * w <= d < (e + 1) * w
    ensures e > 0 <==> w <= d
  {
    if e > 0 {
      MulMono(1, e, w);
    } else {
      MulMono(e + 1, 1, w);
    }
  }

  // ------------------------------------------- the rate bound over a window

  function Grant(c: Config, s: State, e: Event): nat
    requires Sane(c)
  {
    if Granted(c, s, e) then 1 else 0
  }

  /** One attempt: a grant spends one interval of the potential, and an attempt that was not refused
      by the quota leaves at most a full bucket of it. */
  lemma TryPotential(c: Config, s: State, e: Event)
    requires Inv(c, s) && s.lastRefill <= e.now && e.Try?
    ensures var t, w := Step(c, s, e), IntervalNs(c);
            && (t.tokens + Grant(c, s, e)) * w - t.lastRefill <= s.tokens * w - s.lastRefill
            && (!Exhausted(c, DayReset(s, e.today)) ==>
                  (t.tokens + Grant(c, s, e)) * w + (e.now - t.lastRefill) <= c.maxTokens * w)
            && (Exhausted(c, DayReset(s, e.today)) ==> Grant(c, s, e) == 0)
  {
    RefillPotential(c, DayReset(s, e.today), e.now);
  }

  /** A run of attempts spends at most the potential tokens + (time - lastRefill)/interval. */
  lemma {:induction false} GrantsSpendPotential(c: Config, s: State, now: int, es: seq<Event>)
    requires Inv(c, s) && s.lastRefill <= now && Ordered(now, es) && NoReset(es)
    ensures Grants(c, s, es) * IntervalNs(c) <= s.tokens * IntervalNs(c) + (LastTime(now, es) - s.lastRefill)
    decreases |es|
  {
    var w := IntervalNs(c);
    MulMono(0, s.tokens, w);
    if es == [] {
    } else {
      var e, t := es[0], Step(c, s, es[0]);
      TryPotential(c, s, e);
      StepKeepsInv(c, s, e);
      GrantsSpendPotential(c, t, e.now, es[1..]);
      GrantsUnfold(c, s, es);
      hide Step, Grants, Grant, IntervalNs;
      MulAdd(t.tokens, Grant(c, s, e), w);
      MulAdd(Grant(c, s, e), Grants(c, t, es[1..]), w);
    }
  }

  lemma GrantsUnfold(c: Config, s: State, es: seq<Event>)
    requires Sane(c) && es != []
    ensures Grants(c, s, es) == Grant(c, s, es[0]) + Grants(c, Step(c, s, es[0]), es[1..])
  {
  }

  /** In terms of the interval: grants in a window against the time between its first and last attempt. */
  lemma {:induction false} WindowPotential(c: Config, s: State, now: int, es: seq<Event>)
    requires Inv(c, s) && s.lastRefill <= now && Ordered(now, es) && NoReset(es) && es != []
    ensures Grants(c, s, es) * IntervalNs(c) <= c.maxTokens * IntervalNs(c) + (LastTime(now, es) - es[0].now)
    decreases |es|
  {
    var w, e, t := IntervalNs(c), es[0], Step(c, s, es[0]);
    TryPotential(c, s, e);
    StepKeepsInv(c, s, e);
    GrantsUnfold(c, s, es);
    hide Step, Grants, Grant, IntervalNs, DayReset, Exhausted;
    if !Exhausted(c, DayReset(s, e.today)) {
      GrantsSpendPotential(c, t, e.now, es[1..]);
      MulAdd(t.tokens, Grant(c, s, e), w);
      MulAdd(Grant(c, s, e), Grants(c, t, es[1..]), w);
    } else if |es| > 1 {
      WindowPotential(c, t, e.now, es[1..]);
    } else {
      NoGrants(c, t, es[1..]);
      MulMono(0, c.maxTokens, w);
    }
  }

  lemma NoGrants(c: Config, s: State, es: seq<Event>)
    requires Sane(c) && es == []
    ensures Grants(c, s, es) == 0
  {
  }

  /**
   The rate bound. In any run of the limiter from its construction, resets included and whatever the
   system clock is set to, and over any window i..j of it without a reset: the acquisitions granted in
   the window number at most
   maxTokens + floor((time from its first to its last attempt) / refill interval). */
  lemma WindowBound(c: Config, today: int, now: int, es: seq<Event>, i: nat, j: nat)
    requires Sane(c) && Ordered(now, es)
    requires i < j <= |es| && NoReset(es[i..j])
    ensures Grants(c, Run(c, Initial(c, today, now), es[..i]), es[i..j])
            <= c.maxTokens + (es[j - 1].now - es[i].now) / IntervalNs(c)
  {
    hide Run, Grants, Ordered, Initial, IntervalNs;
    var s, t := Run(c, Initial(c, today, now), es[..i]), LastTime(now, es[..i]);
    WindowState(c, today, now, es, i, j);
    var window := es[i..j];
    WindowPotential(c, s, t, window);
    OrderedParts(t, window, 0);
    hide NoReset;
    assert window[0] == es[i] && window[|window| - 1] == es[j - 1];
    PositiveInterval(c);
    BoundFromProduct(Grants(c, s, window), c.maxTokens, IntervalNs(c), es[j - 1].now - es[i].now);
  }

  lemma PositiveInterval(c: Config)
    requires Sane(c)
    ensures IntervalNs(c) > 0
  {
  }

  /** A window of a run is itself a run, from a state that satisfies the invariant. */
  lemma WindowState(c: Config, today: int, now: int, es: seq<Event>, i: nat, j: nat)
    requires Sane(c) && Ordered(now, es) && i <= j <= |es|
    ensures var s, t := Run(c, Initial(c, today, now), es[..i]), LastTime(now, es[..i]);
            Inv(c, s) && s.lastRefill <= t && Ordered(t, es[i..j])
  {
    OrderedParts(now, es, i);
    OrderedParts(LastTime(now, es[..i]), es[i..], j - i);
    assert es[i..][..j - i] == es[i..j];
    RunKeepsInv(c, Initial(c, today, now), es[..i]);
    RunInOrder(c, Initial(c, today, now), now, es[..i]);
  }

  lemma {:induction false} OrderedParts(now: int, es: seq<Event>, i: nat)
    requires Ordered(now, es) && i <= |es|
    ensures Ordered(now, es[..i])
    ensures Ordered(LastTime(now, es[..i]), es[i..])
    ensures es != [] ==> now <= es[0].now <= es[|es| - 1].now
    decreases |es|
  {
    if es == [] {
    } else {
      OrderedParts(es[0].now, es[1..], if i > 0 then i - 1 else 0);
      if i > 0 {
        assert es[..i][1..] == es[1..][..i - 1] && es[i..] == es[1..][i - 1..];
      }
    }
  }

  lemma {:induction false} DaysOrderedParts(today: int, es: seq<Event>, i: nat)
    requires DaysOrdered(today, es) && i <= |es|
    ensures DaysOrdered(today, es[..i])
    ensures DaysOrdered(LastDay(today, es[..i]), es[i..])
    decreases |es|
  {
    if es == [] {
    } else {
      DaysOrderedParts(es[0].today, es[1..], if i > 0 then i - 1 else 0);
      if i > 0 {
        assert es[..i][1..] == es[1..][..i - 1] && es[i..] == es[1..][i - 1..];
      }
    }
  }

  lemma BoundFromProduct(k: int, most: int, w: int, d: int)
    requires w > 0 && d >= 0 && k * w <= most * w + d
    ensures k <= most + d / w
  {
    DivMul(d, w);
    MulAdd(most, d / w + 1, w);
    if k > most + d / w {
      MulMono(most + d / w + 1, k, w);
    }
  }

  // -------------------------------------------------------- the daily quota

  function GrantsOn(c: Config, s: State, es: seq<Event>, day: int): nat
    requires Sane(c)
    decreases |es|
  {
    if es == [] then 0
    else (if es[0].today == day then Grant(c, s, es[0]) else 0) + GrantsOn(c, Step(c, s, es[0]), es[1..], day)
  }

  /** What the quota still allows on a given day, from a given state on. */
  function Allowance(c: Config, s: State, day: int): int {
    if day > s.dayStart then c.dailyLimit else if day == s.dayStart then c.dailyLimit - s.used else 0
  }

  lemma {:induction false} QuotaFromState(c: Config, s: State, es: seq<Event>, day: int)
    requires Inv(c, s) && c.dailyLimit > 0 && DaysOrdered(s.dayStart, es) && NoReset(es)
    ensures GrantsOn(c, s, es, day) <= Allowance(c, s, day)
    decreases |es|
  {
    if es == [] {
    } else {
      var e, t := es[0], Step(c, s, es[0]);
      StepKeepsInv(c, s, e);
      QuotaFromState(c, t, es[1..], day);
      TryUsesQuota(c, s, e);
    }
  }

  lemma TryUsesQuota(c: Config, s: State, e: Event)
    requires Inv(c, s) && c.dailyLimit > 0 && s.dayStart <= e.today && e.Try?
    ensures var t := Step(c, s, e);
            t.used == (if e.today > s.dayStart then 0 else s.used) + Grant(c, s, e) && t.dayStart == e.today
  {
    RefillKeepsInv(c, DayReset(s, e.today), e.now);
  }

  /**
   The quota. With a positive daily limit, in any run from construction on days that never go back,
   and over any stretch of it without an explicit reset, at most `dailyLimit` acquisitions are granted
   on any one UTC day. */
  lemma DailyQuota(c: Config, today: int, now: int, es: seq<Event>, i: nat, j: nat, day: int)
    requires Sane(c) && DaysOrdered(today, es) && c.dailyLimit > 0
    requires i <= j <= |es| && NoReset(es[i..j])
    ensures GrantsOn(c, Run(c, Initial(c, today, now), es[..i]), es[i..j], day) <= c.dailyLimit
  {
    var start := Initial(c, today, now);
    DaysOrderedParts(today, es, i);
    DaysOrderedParts(LastDay(today, es[..i]), es[i..], j - i);
    assert es[i..][..j - i] == es[i..j];
    RunKeepsInv(c, start, es[..i]);
    RunOfDays(c, start, es[..i]);
    QuotaFromState(c, Run(c, start, es[..i]), es[i..j], day);
  }
}

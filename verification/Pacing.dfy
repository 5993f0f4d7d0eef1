/**
 From acquisitions to requests. A single caller sends each HTTP get some time after the acquisition
 that pays for it and before the next one. How many gets can then fall into a window of time, or on
 one day, differs from the bound on acquisitions by one. */
module Pacing {
  import opened Core
  import opened Environment
  import opened TokenBucket

  function Moments(rs: seq<Reading>): (ts: seq<int>)
    ensures |ts| == |rs| && forall i :: 0 <= i < |rs| ==> ts[i] == rs[i].now
  {
    seq(|rs|, i requires 0 <= i < |rs| => rs[i].now)
  }

  function Days(rs: seq<Reading>): (ds: seq<int>)
    ensures |ds| == |rs| && forall i :: 0 <= i < |rs| ==> ds[i] == rs[i].today
  {
    seq(|rs|, i requires 0 <= i < |rs| => rs[i].today)
  }

  /** Each get comes after its own grant and before every later one, and none lies after `now`. */
  predicate Alternate(grants: seq<int>, gets: seq<int>, now: int) {
    && |grants| == |gets|
    && (forall i :: 0 <= i < |gets| ==> grants[i] <= gets[i] <= now)
    && (forall i, j :: 0 <= i < j < |gets| ==> gets[i] <= grants[j])
  }

  /** One more acquisition, and its get. */
  lemma OneGetMore(grants: seq<Reading>, gets: seq<Reading>, grant: Reading, get: Reading)
    ensures forall now, later ::
              Alternate(Moments(grants), Moments(gets), now) && now <= grant.now <= get.now <= later ==>
                Alternate(Moments(grants + [grant]), Moments(gets + [get]), later)
    ensures forall day, later ::
              Alternate(Days(grants), Days(gets), day) && day <= grant.today <= get.today <= later ==>
                Alternate(Days(grants + [grant]), Days(gets + [get]), later)
  {
    assert Moments(grants + [grant]) == Moments(grants) + [grant.now];
    assert Moments(gets + [get]) == Moments(gets) + [get.now];
    assert Days(grants + [grant]) == Days(grants) + [grant.today] && Days(gets + [get]) == Days(gets) + [get.today];
  }

  /** The bounds on all readings may be raised. */
  lemma LaterIsFine(grants: seq<Reading>, gets: seq<Reading>)
    ensures forall now, later :: Alternate(Moments(grants), Moments(gets), now) && now <= later ==>
                                   Alternate(Moments(grants), Moments(gets), later)
    ensures forall day, later :: Alternate(Days(grants), Days(gets), day) && day <= later ==>
                                   Alternate(Days(grants), Days(gets), later)
  {
  }

  predicate Sorted(xs: seq<int>) {
    forall a, b :: 0 <= a <= b < |xs| ==> xs[a] <= xs[b]
  }

  lemma AlternateSorted(grants: seq<int>, gets: seq<int>, now: int)
    requires Alternate(grants, gets, now)
    ensures Sorted(grants) && Sorted(gets)
  {
    forall a, b | 0 <= a < b < |gets|
      ensures grants[a] <= gets[a] <= grants[b] <= gets[b]
    {
    }
  }

  /** Every acquisition made before `from` has sent its get before `from`. */
  predicate NoneUnsent(grants: seq<int>, gets: seq<int>, from: int)
    requires |grants| == |gets|
  {
    forall i :: 0 <= i < |gets| ==> grants[i] < from ==> gets[i] < from
  }

  // ---------------------------------------------------------------- counting

  /** How many of the readings lie in from..to. */
  function Count(xs: seq<int>, from: int, to: int): nat {
    if xs == [] then 0 else (if from <= xs[0] <= to then 1 else 0) + Count(xs[1..], from, to)
  }

  /** In ordered readings those of from..to stand together: they are the i-th to the (k-1)-th. */
  lemma {:induction false} Block(xs: seq<int>, from: int, to: int) returns (i: nat, k: nat)
    requires from <= to && Sorted(xs)
    ensures i <= k <= |xs| && Count(xs, from, to) == k - i
    ensures forall m :: 0 <= m < i ==> xs[m] < from
    ensures forall m :: i <= m < k ==> from <= xs[m] <= to
    ensures forall m :: k <= m < |xs| ==> to < xs[m]
  {
    if xs == [] {
      i, k := 0, 0;
    } else {
      var rest := xs[1..];
      i, k := Block(rest, from, to);
      assert forall m :: 0 <= m < |rest| ==> rest[m] == xs[m + 1] && xs[0] <= rest[m];
      if xs[0] < from {
        i, k := i + 1, k + 1;
      } else if xs[0] <= to {
        k := k + 1;
      }
    }
  }

  // -------------------------------------------------------------- the account

  /** How many gets of from..to were granted before it. */
  function Overdue(grants: seq<int>, gets: seq<int>, from: int, to: int): nat
    requires |grants| == |gets|
  {
    if gets == [] then 0
    else (if grants[0] < from <= gets[0] <= to then 1 else 0) + Overdue(grants[1..], gets[1..], from, to)
  }

  /** How many gets were granted in from..to and left after it. */
  function LeftOver(grants: seq<int>, gets: seq<int>, from: int, to: int): nat
    requires |grants| == |gets|
  {
    if gets == [] then 0
    else (if from <= grants[0] <= to < gets[0] then 1 else 0) + LeftOver(grants[1..], gets[1..], from, to)
  }

  /** The gets of from..to are its grants, with those overdue and without those left over. */
  lemma {:induction false} Account(grants: seq<int>, gets: seq<int>, from: int, to: int)
    requires |grants| == |gets| && forall i :: 0 <= i < |gets| ==> grants[i] <= gets[i]
    ensures Count(gets, from, to) + LeftOver(grants, gets, from, to)
            == Count(grants, from, to) + Overdue(grants, gets, from, to)
  {
    if gets == [] {
    } else {
      Account(grants[1..], gets[1..], from, to);
    }
  }

  lemma {:induction false} NoneOverdue(grants: seq<int>, gets: seq<int>, from: int, to: int)
    requires |grants| == |gets| && NoneUnsent(grants, gets, from)
    ensures Overdue(grants, gets, from, to) == 0
  {
    if gets == [] {
    } else {
      NoneOverdue(grants[1..], gets[1..], from, to);
    }
  }

  /** A single caller has at most one acquisition unsent at any time. */
  lemma {:induction false} OneOverdue(grants: seq<int>, gets: seq<int>, now: int, from: int, to: int)
    requires Alternate(grants, gets, now)
    ensures Overdue(grants, gets, from, to) <= 1
  {
    if gets == [] {
    } else if grants[0] < from <= gets[0] {
      assert forall j :: 0 < j < |gets| ==> from <= gets[0] <= grants[j];
      NoneOverdue(grants[1..], gets[1..], from, to);
    } else {
      OneOverdue(grants[1..], gets[1..], now, from, to);
    }
  }

  /** With at most `most` grants in from..to: how many gets there are, and when one more than that. */
  lemma GetsOfGrants(grants: seq<int>, gets: seq<int>, now: int, from: int, to: int, most: int)
    requires Alternate(grants, gets, now) && Count(grants, from, to) <= most
    ensures Count(gets, from, to) <= most + 1
    ensures NoneUnsent(grants, gets, from) ==> Count(gets, from, to) <= most
    ensures Count(gets, from, to) > most <==>
            && Count(grants, from, to) == most
            && Overdue(grants, gets, from, to) == 1
            && LeftOver(grants, gets, from, to) == 0
  {
    Account(grants, gets, from, to);
    OneOverdue(grants, gets, now, from, to);
    hide Count, Overdue, LeftOver, Alternate, NoneUnsent;
    if NoneUnsent(grants, gets, from) {
      NoneOverdue(grants, gets, from, to);
    }
  }

  // ------------------------------------------------- grants of a run, one by one

  /** Whole refill intervals in a stretch of time. */
  function Intervals(c: Config, d: nat): nat
    requires Sane(c)
  {
    PositiveInterval(c);
    DivMul(d, IntervalNs(c));
    d / IntervalNs(c)
  }

  /** One step: g grants lower the potential from (tokens, l) to (tokens', l'), and m more fit after it. */
  lemma SpendStep(n: int, m: int, g: int, held: int, tokens': int, l': int, tokens: int, l: int, w: int, at: int)
    requires n == m + g && held == tokens' + g
    requires held * w - l' <= tokens * w - l && m * w <= tokens' * w + (at - l')
    ensures n * w <= tokens * w + (at - l)
  {
    MulAdd(tokens', g, w);
    MulAdd(m, g, w);
  }

  /** The first n grants of a run are paid for by its tokens and the time up to the last of them. */
  lemma {:induction false} FirstGrants(c: Config, s: State, now: int, es: seq<Event>, j: nat, n: int)
    requires Inv(c, s) && s.lastRefill <= now && Ordered(now, es) && NoReset(es)
    requires j < |GrantReadings(c, s, es)| && n == j + 1
    ensures n * IntervalNs(c) <= s.tokens * IntervalNs(c) + (GrantReadings(c, s, es)[j].now - s.lastRefill)
    decreases |es|
  {
    var e, t, w := es[0], Step(c, s, es[0]), IntervalNs(c);
    var at, held := GrantReadings(c, s, es)[j].now, t.tokens + Grant(c, s, e);
    TryPotential(c, s, e);
    StepKeepsInv(c, s, e);
    GrantsHead(c, s, es);
    PositiveInterval(c);
    hide Step, Grant, GrantReadings, IntervalNs, Exhausted, DayReset;
    if Grant(c, s, e) == 0 {
      FirstGrants(c, t, e.now, es[1..], j, n);
      SpendStep(n, n, 0, held, t.tokens, t.lastRefill, s.tokens, s.lastRefill, w, at);
    } else {
      if j == 0 {
        MulMono(0, t.tokens, w);
      } else {
        FirstGrants(c, t, e.now, es[1..], j - 1, j);
      }
      SpendStep(n, j, 1, held, t.tokens, t.lastRefill, s.tokens, s.lastRefill, w, at);
    }
  }

  lemma GrantsHead(c: Config, s: State, es: seq<Event>)
    requires Sane(c) && es != []
    ensures var rest := GrantReadings(c, Step(c, s, es[0]), es[1..]);
            && (Grant(c, s, es[0]) == 0 ==> GrantReadings(c, s, es) == rest)
            && (Grant(c, s, es[0]) != 0 ==>
                  Grant(c, s, es[0]) == 1
                  && GrantReadings(c, s, es) == [Reading(es[0].now, es[0].today)] + rest)
  {
  }

  lemma {:induction false} ApartProduct(c: Config, s: State, now: int, es: seq<Event>, i: nat, j: nat, n: int)
    requires Inv(c, s) && s.lastRefill <= now && Ordered(now, es) && NoReset(es)
    requires i <= j < |GrantReadings(c, s, es)| && n == j - i + 1
    ensures var gs := GrantReadings(c, s, es);
            n * IntervalNs(c) <= c.maxTokens * IntervalNs(c) + (gs[j].now - gs[i].now)
    decreases |es|
  {
    var e, t, w := es[0], Step(c, s, es[0]), IntervalNs(c);
    var at, held := GrantReadings(c, s, es)[j].now, t.tokens + Grant(c, s, e);
    TryPotential(c, s, e);
    StepKeepsInv(c, s, e);
    GrantsHead(c, s, es);
    PositiveInterval(c);
    hide Step, Grant, GrantReadings, IntervalNs, DayReset, Exhausted;
    if Grant(c, s, e) == 0 {
      ApartProduct(c, t, e.now, es[1..], i, j, n);
    } else if i > 0 {
      ApartProduct(c, t, e.now, es[1..], i - 1, j - 1, n);
    } else {
      if j == 0 {
        MulMono(0, t.tokens, w);
      } else {
        FirstGrants(c, t, e.now, es[1..], j - 1, j);
      }
      SpendStep(n, j, 1, held, t.tokens, t.lastRefill, c.maxTokens, e.now, w, at);
    }
  }

  /** The rate bound in terms of the grants themselves: between any two of them, no more than `d` apart. */
  lemma GrantsApart(c: Config, s: State, now: int, es: seq<Event>, i: nat, j: nat, d: nat)
    requires Inv(c, s) && s.lastRefill <= now && Ordered(now, es) && NoReset(es)
    requires i <= j < |GrantReadings(c, s, es)|
    requires GrantReadings(c, s, es)[j].now - GrantReadings(c, s, es)[i].now <= d
    ensures j - i + 1 <= c.maxTokens + Intervals(c, d)
  {
    var n := j - i + 1;
    ApartProduct(c, s, now, es, i, j, n);
    PositiveInterval(c);
    hide IntervalNs, GrantReadings;
    BoundFromProduct(n, c.maxTokens, IntervalNs(c), d);
  }

  lemma {:induction false} GrantsOnIsCount(c: Config, s: State, es: seq<Event>, day: int)
    requires Sane(c)
    ensures Count(Days(GrantReadings(c, s, es)), day, day) == GrantsOn(c, s, es, day)
    decreases |es|
  {
    if es == [] {
    } else {
      var rest := GrantReadings(c, Step(c, s, es[0]), es[1..]);
      GrantsOnIsCount(c, Step(c, s, es[0]), es[1..], day);
      GrantsHead(c, s, es);
      if Grant(c, s, es[0]) != 0 {
        assert Days(GrantReadings(c, s, es))[1..] == Days(rest);
      }
    }
  }

  // ------------------------------------------------------ gets in a window

  /** The rate bound on the grants of any window of time, whether or not an attempt stands at its ends. */
  lemma GrantsInWindow(c: Config, s: State, now: int, es: seq<Event>, from: int, to: int)
    requires Inv(c, s) && s.lastRefill <= now && Ordered(now, es) && NoReset(es) && from <= to
    requires Sorted(Moments(GrantReadings(c, s, es)))
    ensures Count(Moments(GrantReadings(c, s, es)), from, to) <= c.maxTokens + Intervals(c, to - from)
  {
    hide GrantReadings, Intervals, Count, Ordered, NoReset;
    var gs := GrantReadings(c, s, es);
    var i, k := Block(Moments(gs), from, to);
    if i < k {
      assert from <= Moments(gs)[i] && Moments(gs)[k - 1] <= to;
      GrantsApart(c, s, now, es, i, k - 1, to - from);
    }
  }

  /**
   Gets in any window of time. They number at most max_tokens + 1 + floor(length / interval). The one more
   than the bound on acquisitions is there exactly when the window has all the acquisitions it can have, one
   get made in it was overdue at its start, and none of its acquisitions is left over at its end. */
  lemma GetsInWindow(c: Config, s: State, now: int, es: seq<Event>, gets: seq<int>, end: int, from: int, to: int)
    requires Inv(c, s) && s.lastRefill <= now && Ordered(now, es) && NoReset(es)
    requires Alternate(Moments(GrantReadings(c, s, es)), gets, end) && from <= to
    ensures var grants, most := Moments(GrantReadings(c, s, es)), c.maxTokens + Intervals(c, to - from);
            && Count(gets, from, to) <= most + 1
            && (NoneUnsent(grants, gets, from) ==> Count(gets, from, to) <= most)
            && (Count(gets, from, to) > most <==>
                  && Count(grants, from, to) == most
                  && Overdue(grants, gets, from, to) == 1
                  && LeftOver(grants, gets, from, to) == 0)
  {
    hide GrantReadings, Intervals, Count, Ordered, NoReset;
    var grants := Moments(GrantReadings(c, s, es));
    AlternateSorted(grants, gets, end);
    GrantsInWindow(c, s, now, es, from, to);
    GetsOfGrants(grants, gets, end, from, to, c.maxTokens + Intervals(c, to - from));
  }

  /** Gets on one day, likewise: the limit plus one at most, and when exactly the limit is exceeded. */
  lemma GetsOnDay(c: Config, s: State, es: seq<Event>, gets: seq<int>, end: int, day: int)
    requires Inv(c, s) && c.dailyLimit > 0 && DaysOrdered(s.dayStart, es) && NoReset(es)
    requires Alternate(Days(GrantReadings(c, s, es)), gets, end)
    ensures var grants := Days(GrantReadings(c, s, es));
            && Count(gets, day, day) <= c.dailyLimit + 1
            && (NoneUnsent(grants, gets, day) ==> Count(gets, day, day) <= c.dailyLimit)
            && (Count(gets, day, day) > c.dailyLimit <==>
                  && GrantsOn(c, s, es, day) == c.dailyLimit
                  && Overdue(grants, gets, day, day) == 1
                  && LeftOver(grants, gets, day, day) == 0)
  {
    hide GrantReadings, Count, DaysOrdered, NoReset;
    QuotaFromState(c, s, es, day);
    GrantsOnIsCount(c, s, es, day);
    GetsOfGrants(Days(GrantReadings(c, s, es)), gets, end, day, day, c.dailyLimit);
  }

  // ------------------------------------------------------- the one is needed

  /** n attempts on the same readings. */
  function Burst(n: nat, today: int, now: int): seq<Event> {
    if n == 0 then [] else [Try(today, now)] + Burst(n - 1, today, now)
  }

  /** How many acquisitions a full bucket and a fresh day allow at once. */
  function BurstSize(c: Config): nat
    requires Sane(c)
  {
    if c.dailyLimit > 0 then Min(c.maxTokens, c.dailyLimit) else c.maxTokens
  }

  /** One attempt with tokens and quota left, no time after the last refill. */
  lemma ImmediateTry(c: Config, s: State)
    requires Inv(c, s) && 0 < s.tokens && !Exhausted(c, s)
    ensures var t := TryAcquire(c, s, s.dayStart, s.lastRefill);
            && t.1 && t.0.tokens == s.tokens - 1 && t.0.lastRefill == s.lastRefill && t.0.dayStart == s.dayStart
            && t.0.used <= s.used + 1 && Inv(c, t.0)
  {
  }

  lemma {:induction false} BurstIsGranted(c: Config, s: State, n: nat)
    requires Inv(c, s) && n <= s.tokens && (c.dailyLimit > 0 ==> s.used + n <= c.dailyLimit)
    ensures var es := Burst(n, s.dayStart, s.lastRefill);
            && GrantReadings(c, s, es) == Repeat(Reading(s.lastRefill, s.dayStart), n)
            && Ordered(s.lastRefill, es) && DaysOrdered(s.dayStart, es) && NoReset(es)
    decreases n
  {
    if n == 0 {
    } else {
      var e, es := Try(s.dayStart, s.lastRefill), Burst(n - 1, s.dayStart, s.lastRefill);
      ImmediateTry(c, s);
      BurstIsGranted(c, Step(c, s, e), n - 1);
      assert ([e] + es)[1..] == es;
    }
  }

  /** How many attempts on the same readings are granted: what the bucket and the day still hold. */
  function AtOnce(c: Config, s: State): nat
    requires Inv(c, s)
  {
    if c.dailyLimit > 0 then Min(s.tokens, c.dailyLimit - s.used) else s.tokens
  }

  lemma {:induction false} BurstGrants(c: Config, s: State, n: nat)
    requires Inv(c, s)
    ensures Grants(c, s, Burst(n, s.dayStart, s.lastRefill)) == Min(n, AtOnce(c, s))
    decreases n
  {
    if n == 0 {
    } else {
      var e, es := Try(s.dayStart, s.lastRefill), Burst(n - 1, s.dayStart, s.lastRefill);
      assert ([e] + es)[1..] == es;
      OneAtOnce(c, s);
      BurstGrants(c, Step(c, s, e), n - 1);
      hide Step, Granted, Inv;
    }
  }

  lemma OneAtOnce(c: Config, s: State)
    requires Inv(c, s)
    ensures var e, t := Try(s.dayStart, s.lastRefill), Step(c, s, Try(s.dayStart, s.lastRefill));
            && Inv(c, t) && t.dayStart == s.dayStart && t.lastRefill == s.lastRefill
            && (Granted(c, s, e) <==> AtOnce(c, s) > 0)
            && AtOnce(c, t) == Max(AtOnce(c, s) - 1, 0)
  {
    var d := DayReset(s, s.dayStart);
    assert d == s;
    if 0 < s.tokens && !Exhausted(c, s) {
      ImmediateTry(c, s);
      UsedOne(c, s);
    } else if s.tokens == 0 {
      assert Earned(c, s, s.lastRefill) == 0;
    }
  }

  lemma UsedOne(c: Config, s: State)
    requires Inv(c, s) && 0 < s.tokens && !Exhausted(c, s)
    ensures c.dailyLimit > 0 ==> TryAcquire(c, s, s.dayStart, s.lastRefill).0.used == s.used + 1
  {
  }

  /**
   A limiter just made or reset, in terms of its configuration alone: the observers show the initial tokens
   and the whole quota, and of n attempts at that instant as many are granted as both allow. */
  lemma StartIsFull(c: Config, today: int, now: int, n: nat)
    requires Sane(c)
    ensures var s := Initial(c, today, now);
            && TokenBucket.AvailableTokens(c, s, now) == c.initialTokens
            && DailyRemaining(c, s, today) == (if c.dailyLimit <= 0 then 0x7fff_ffff else c.dailyLimit)
            && Grants(c, s, Burst(n, today, now))
               == if c.dailyLimit > 0 then Min(n, Min(c.initialTokens, c.dailyLimit)) else Min(n, c.initialTokens)
  {
    BurstGrants(c, Initial(c, today, now), n);
  }

  /** After as many intervals as the bucket lacks tokens, an attempt finds it full; so it does one later. */
  lemma FullAgain(c: Config, s: State, n: nat)
    requires Inv(c, s) && c.maxTokens <= s.tokens + n
    ensures var now := s.lastRefill + n * IntervalNs(c);
            Refill(c, s, now) == s.(tokens := c.maxTokens, lastRefill := now)
  {
    var w, now := IntervalNs(c), s.lastRefill + n * IntervalNs(c);
    PositiveInterval(c);
    MulMono(0, n, w);
    EarnedIsFloor(c, s, now);
    MulAdd(n, 1, w);
    hide IntervalNs, Earned;
    FloorUnique(n, Earned(c, s, now), w, now - s.lastRefill);
  }

  /** A full bucket on day 0, one attempt there, and a burst one interval later on day 1. */
  function LateAttempts(c: Config): seq<Event>
    requires Sane(c)
  {
    var full := c.maxTokens * IntervalNs(c);
    [Try(0, full)] + Burst(BurstSize(c), 1, full + IntervalNs(c))
  }

  lemma FirstLate(c: Config)
    requires Sane(c)
    ensures var full := c.maxTokens * IntervalNs(c);
            && 0 <= full && Granted(c, Initial(c, 0, 0), Try(0, full))
            && Step(c, Initial(c, 0, 0), Try(0, full)) == State(c.maxTokens - 1, full, 1, 0)
  {
    FullAgain(c, Initial(c, 0, 0), c.maxTokens);
    PositiveInterval(c);
    MulMono(0, c.maxTokens, IntervalNs(c));
    hide Refill, IntervalNs;
  }

  /** The first attempt of the burst finds the bucket full: as if it had been all along. */
  lemma BurstFindsFull(c: Config, full: int)
    requires Sane(c)
    ensures var s := State(c.maxTokens - 1, full, 1, 0);
            var now := full + IntervalNs(c);
            Step(c, s, Try(1, now)) == Step(c, State(c.maxTokens, now, 0, 1), Try(1, now))
            && Granted(c, s, Try(1, now)) == Granted(c, State(c.maxTokens, now, 0, 1), Try(1, now))
  {
    FullAgain(c, State(c.maxTokens - 1, full, 0, 1), 1);
    FullAgain(c, State(c.maxTokens, full + IntervalNs(c), 0, 1), 0);
    hide Refill, IntervalNs;
  }

  /** Every attempt of the run is granted. */
  lemma LateGrants(c: Config)
    requires Sane(c)
    ensures var es := LateAttempts(c);
            var full := c.maxTokens * IntervalNs(c);
            && Ordered(0, es) && DaysOrdered(0, es) && NoReset(es)
            && GrantReadings(c, Initial(c, 0, 0), es)
               == [Reading(full, 0)] + Repeat(Reading(full + IntervalNs(c), 1), BurstSize(c))
  {
    var full, w, n := c.maxTokens * IntervalNs(c), IntervalNs(c), BurstSize(c);
    var first, now := Try(0, full), full + w;
    var burst, rested := Burst(n, 1, now), State(c.maxTokens, now, 0, 1);
    FirstLate(c);
    BurstIsGranted(c, rested, n);
    BurstFindsFull(c, full);
    PositiveInterval(c);
    assert ([first] + burst)[1..] == burst;
    hide IntervalNs, Step, Granted, TryAcquire;
    SameFirstStep(c, State(c.maxTokens - 1, full, 1, 0), rested, burst);
  }

  lemma SameFirstStep(c: Config, s: State, t: State, es: seq<Event>)
    requires Sane(c)
    requires es != [] ==> Step(c, s, es[0]) == Step(c, t, es[0]) && Granted(c, s, es[0]) == Granted(c, t, es[0])
    ensures GrantReadings(c, s, es) == GrantReadings(c, t, es)
  {
  }

  lemma {:induction false} CountRepeat(x: int, n: nat, from: int, to: int)
    requires from <= x <= to
    ensures Count(Repeat(x, n), from, to) == n
  {
    if n == 0 {
    } else {
      CountRepeat(x, n - 1, from, to);
      assert Repeat(x, n)[1..] == Repeat(x, n - 1);
    }
  }

  /**
   For every configuration: an acquisition that is sent late, together with a burst on the next day, makes
   one get more than the burst, all at one instant of one day. So the bound of GetsInWindow is met by every
   configuration whose daily limit does not cut the burst short, and that of GetsOnDay by every other one. */
  lemma LateGet(c: Config)
    requires Sane(c)
    ensures var s, es, n := Initial(c, 0, 0), LateAttempts(c), BurstSize(c) + 1;
            var now := (c.maxTokens + 1) * IntervalNs(c);
            && Inv(c, s) && Ordered(0, es) && DaysOrdered(0, es) && NoReset(es)
            && Alternate(Moments(GrantReadings(c, s, es)), Repeat(now, n), now)
            && Alternate(Days(GrantReadings(c, s, es)), Repeat(1, n), 1)
            && Count(Repeat(now, n), now, now) == n == Count(Repeat(1, n), 1, 1)
            && (c.dailyLimit <= 0 || c.maxTokens <= c.dailyLimit ==> n == c.maxTokens + 1 + Intervals(c, now - now))
            && (0 < c.dailyLimit <= c.maxTokens ==> n == c.dailyLimit + 1)
  {
    var full, w, n := c.maxTokens * IntervalNs(c), IntervalNs(c), BurstSize(c);
    MulAdd(c.maxTokens, 1, w);
    PositiveInterval(c);
    LateGrants(c);
    NoInterval(c);
    CountRepeat(full + w, n + 1, full + w, full + w);
    CountRepeat(1, n + 1, 1, 1);
    hide IntervalNs, GrantReadings, Intervals, Count, LateAttempts, Ordered, DaysOrdered, NoReset;
    var rs := [Reading(full, 0)] + Repeat(Reading(full + w, 1), n);
    assert Moments(rs) == [full] + Repeat(full + w, n) && Days(rs) == [0] + Repeat(1, n);
  }

  lemma NoInterval(c: Config)
    requires Sane(c)
    ensures Intervals(c, 0) == 0
  {
    PositiveInterval(c);
    hide IntervalNs;
  }

  /** One token, one request a day: two gets at one instant of one day. */
  lemma TwoGetsOnOneDay()
    ensures var c := Config(1, 200, 1, None, 1);
            var now := 2 * IntervalNs(c);
            && Sane(c)
            && Alternate(Days(GrantReadings(c, Initial(c, 0, 0), LateAttempts(c))), [1, 1], 1)
            && Alternate(Moments(GrantReadings(c, Initial(c, 0, 0), LateAttempts(c))), [now, now], now)
  {
    var c := Config(1, 200, 1, None, 1);
    LateGet(c);
    assert Repeat(1, 2) == [1, 1] && Repeat(2 * IntervalNs(c), 2) == [2 * IntervalNs(c), 2 * IntervalNs(c)];
  }
}

/**
 The world outside the client: two clocks, the sleeping thread and the HTTP server. Time passes
 by any amount between two operations; a sleep lets both clocks advance at least as requested.
 The system clock may also be set, to any time and any finite number of times. */
module Environment {
  import opened Core

  datatype HttpResponse = HttpResponse(status: int, body: Bytes)
  type Outcome = Result<HttpResponse>

  // What the two clocks show at one moment: the steady time, and the day of the system clock.
  datatype Reading = Reading(now: int, today: int)

  const NS_PER_MS := 1_000_000
  const NS_PER_DAY := 86_400_000_000_000

  /** `floor<days>` of a system clock reading. */
  function DayOfClock(ns: int): int { ns / NS_PER_DAY }

  class Env {
    var steady: int             // steady_clock, in nanoseconds
    var system: int             // system_clock, in nanoseconds since the epoch
    var corrections: nat        // how often the system clock is still going to be set
    var served: nat             // how many HTTP gets there were
    ghost var sent: seq<Bytes>  // their paths
    ghost var asked: int        // how long the threads asked to sleep, in nanoseconds, all told
    ghost var gets: seq<Reading> // what the clocks showed when each of them left
    const server: (nat, Bytes) -> Outcome // what the n-th get, for a given path, comes back with

    constructor (steady: int, system: int, corrections: nat, server: (nat, Bytes) -> Outcome)
      ensures this.steady == steady && this.system == system && this.server == server
      ensures this.corrections == corrections
      ensures Valid() && sent == [] && asked == 0
    {
      this.steady, this.system, this.corrections, this.server := steady, system, corrections, server;
      sent, gets, served, asked := [], [], 0, 0;
    }

    ghost predicate Valid()
      reads this
    {
      served == |sent| == |gets|
    }

    /** The steady clock did not go back, and the system clock did not unless it was set. */
    twostate predicate ClocksRan()
      reads this
    {
      && old(steady) <= steady && corrections <= old(corrections)
      && (corrections == old(corrections) ==> old(system) <= system)
    }

    twostate predicate OnlyTimePassed()
      reads this
    {
      ClocksRan() && sent == old(sent) && gets == old(gets) && served == old(served)
    }

    method PassTime(atLeast: int)
      requires atLeast >= 0
      modifies this
      ensures OnlyTimePassed()
      ensures steady >= old(steady) + atLeast && asked == old(asked) + atLeast
      ensures corrections == old(corrections) ==> system >= old(system) + atLeast
    {
      var more: nat, skew: nat, isSet: bool := *, *, *;
      steady, asked := steady + atLeast + more, asked + atLeast;
      if isSet && corrections > 0 {
        corrections := corrections - 1;
        system := *;
      } else {
        system := system + atLeast + skew;
      }
    }

    method SteadyNow() returns (t: int)
      modifies this
      ensures OnlyTimePassed() && t == steady && asked == old(asked)
    {
      PassTime(0);
      t := steady;
    }

    method Today() returns (day: int)
      modifies this
      ensures OnlyTimePassed() && day == DayOfClock(system) && asked == old(asked)
    {
      PassTime(0);
      day := DayOfClock(system);
    }

    /** A draw of the random generator, uniform over [1 - spread, 1 + spread]: any value in range. */
    method Jitter(spread: real) returns (draw: real)
      requires 0.0 <= spread
      ensures 1.0 - spread <= draw <= 1.0 + spread
    {
      draw := *;
      if draw < 1.0 - spread || 1.0 + spread < draw {
        draw := 1.0;
      }
    }

    /** The request leaves some time after the call, and the response is there some time later. */
    method HttpGet(path: Bytes) returns (r: Outcome, ghost left: Reading)
      requires Valid()
      modifies this
      ensures Valid() && ClocksRan() && asked == old(asked)
      ensures sent == old(sent) + [path] && gets == old(gets) + [left] && r == server(old(served), path)
      ensures old(steady) <= left.now <= steady
      ensures corrections == old(corrections) ==> DayOfClock(old(system)) <= left.today <= DayOfClock(system)
    {
      PassTime(0);
      left := Reading(steady, DayOfClock(system));
      DayMonotone(old(system), system);
      r := server(served, path);
      sent, gets, served := sent + [path], gets + [left], served + 1;
      label Left:
      PassTime(0);
      DayMonotone(old@Left(system), system);
    }
  }

  /** A day is 24 hours of the clock, counted from the epoch. */
  lemma DayIs(ns: int, day: int)
    ensures DayOfClock(ns) == day <==> day * (24 * 3600 * 1_000_000_000) <= ns < (day + 1) * (24 * 3600 * 1_000_000_000)
  {
  }

  lemma DayMonotone(a: int, b: int)
    ensures a <= b ==> DayOfClock(a) <= DayOfClock(b)
  {
  }
}

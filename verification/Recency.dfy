/**
 The simple form of the cache (include/ncei/cache.hpp): one list of slots, most recent first.
 LruCache.dfy shows that the map and the list of the class compute these steps. */
module Recency {
  import opened Core

  datatype Slot<K, V> = Slot(key: K, value: V, at: int) // `at`: when it was put, in nanoseconds

  datatype Config = Config(maxEntries: nat, ttl: int) // ttl in nanoseconds

  function Find<K(==), V>(l: seq<Slot<K, V>>, k: K): Option<Slot<K, V>> {
    if l == [] then None else if l[0].key == k then Some(l[0]) else Find(l[1..], k)
  }

  function Without<K(==), V>(l: seq<Slot<K, V>>, k: K): seq<Slot<K, V>> {
    if l == [] then []
    else if l[0].key == k then Without(l[1..], k)
    else [l[0]] + Without(l[1..], k)
  }

  predicate Expired<K, V>(c: Config, s: Slot<K, V>, now: int) {
    now - s.at > c.ttl
  }

  // One operation with its clock reading. A put may fail: an exception while the value is stored.
  datatype Op<K, V> =
    | Get(key: K, now: int)
    | Put(key: K, value: V, now: int, fails: bool)
    | Invalidate(key: K)
    | Clear

  function Take<T>(s: seq<T>, n: nat): seq<T> {
    if |s| <= n then s else s[..n]
  }

  function Step<K(==), V>(c: Config, l: seq<Slot<K, V>>, op: Op<K, V>): seq<Slot<K, V>> {
    match op
    case Get(k, now) =>
      (match Find(l, k)
       case None => l
       case Some(s) => if Expired(c, s, now) then Without(l, k) else [s] + Without(l, k))
    case Put(k, v, now, fails) =>
      if c.maxEntries == 0 || c.ttl <= 0 || fails then l
      else Take([Slot(k, v, now)] + Without(l, k), c.maxEntries)
    case Invalidate(k) => Without(l, k)
    case Clear => []
  }

  /** What a `get` returns. */
  function Hit<K(==), V>(c: Config, l: seq<Slot<K, V>>, k: K, now: int): Option<V> {
    match Find(l, k)
    case None => None
    case Some(s) => if Expired(c, s, now) then None else Some(s.value)
  }

  function Run<K(==), V>(c: Config, ops: seq<Op<K, V>>): seq<Slot<K, V>> {
    if ops == [] then [] else Step(c, Run(c, ops[..|ops| - 1]), ops[|ops| - 1])
  }

  // -------------------------------------------------------- lists of slots

  predicate HasKey<K(==), V>(l: seq<Slot<K, V>>, k: K) {
    Find(l, k).Some?
  }

  predicate Distinct<K(==), V>(l: seq<Slot<K, V>>) {
    l == [] || (!HasKey(l[1..], l[0].key) && Distinct(l[1..]))
  }

  lemma {:induction false} FindMeaning<K, V>(l: seq<Slot<K, V>>, k: K)
    ensures if HasKey(l, k) then Find(l, k).value in l && Find(l, k).value.key == k
            else forall i :: 0 <= i < |l| ==> l[i].key != k
    ensures forall i :: 0 <= i < |l| && l[i].key == k && Distinct(l) ==> Find(l, k) == Some(l[i])
  {
    if l == [] {
    } else {
      FindMeaning(l[1..], k);
      assert forall i :: 0 < i < |l| ==> l[i] == l[1..][i - 1];
    }
  }

  lemma {:induction false} DistinctMeaning<K, V>(l: seq<Slot<K, V>>)
    ensures Distinct(l) <==> forall i, j :: 0 <= i < j < |l| ==> l[i].key != l[j].key
  {
    if l == [] {
    } else {
      var rest := l[1..];
      DistinctMeaning(rest);
      FindMeaning(rest, l[0].key);
      assert forall i :: 0 < i < |l| ==> l[i] == rest[i - 1];
      assert forall i :: 0 <= i < |rest| ==> rest[i] == l[i + 1];
      if HasKey(rest, l[0].key) {
        var i :| 0 <= i < |rest| && rest[i].key == l[0].key;
        assert l[0].key == l[i + 1].key;
      }
    }
  }

  lemma WithoutUnfold<K, V>(l: seq<Slot<K, V>>, k: K)
    requires l != []
    ensures Without(l, k) == if l[0].key == k then Without(l[1..], k) else [l[0]] + Without(l[1..], k)
    ensures l[0].key != k ==> Without(l, k)[1..] == Without(l[1..], k)
  {
  }

  /** Removing a key removes that key and no other. */
  lemma {:induction false} FindWithout<K, V>(l: seq<Slot<K, V>>, k: K, other: K)
    ensures Find(Without(l, other), k) == if k == other then None else Find(l, k)
  {
    if l == [] {
    } else {
      FindWithout(l[1..], k, other);
      WithoutUnfold(l, other);
    }
  }

  lemma {:induction false} WithoutAbsent<K, V>(l: seq<Slot<K, V>>, k: K)
    requires !HasKey(l, k)
    ensures Without(l, k) == l
  {
    if l == [] {
    } else {
      WithoutAbsent(l[1..], k);
    }
  }

  lemma {:induction false} WithoutSize<K, V>(l: seq<Slot<K, V>>, k: K)
    requires Distinct(l)
    ensures Distinct(Without(l, k))
    ensures |Without(l, k)| == if HasKey(l, k) then |l| - 1 else |l|
  {
    if l == [] {
    } else {
      WithoutSize(l[1..], k);
      WithoutUnfold(l, k);
      FindWithout(l[1..], l[0].key, k);
      if l[0].key == k {
        WithoutAbsent(l[1..], k);
      }
    }
  }

  lemma {:induction false} TakeKeeps<K, V>(l: seq<Slot<K, V>>, n: nat, k: K)
    ensures HasKey(Take(l, n), k) ==> Find(Take(l, n), k) == Find(l, k)
    ensures Distinct(l) ==> Distinct(Take(l, n))
  {
    if l == [] || n == 0 || |l| <= n {
    } else {
      TakeKeeps(l[1..], n - 1, k);
      TakeKeeps(l[1..], n - 1, l[0].key);
      assert Take(l, n)[1..] == Take(l[1..], n - 1);
    }
  }

  /** Keys are distinct and the size stays below the capacity, in every reachable state. */
  lemma StepKeeps<K, V>(c: Config, l: seq<Slot<K, V>>, op: Op<K, V>)
    requires Distinct(l) && |l| <= c.maxEntries
    ensures Distinct(Step(c, l, op)) && |Step(c, l, op)| <= c.maxEntries
  {
    if !op.Clear? {
      WithoutSize(l, op.key);
      FindWithout(l, op.key, op.key);
      FindMeaning(l, op.key);
      if op.Put? {
        var pushed := [Slot(op.key, op.value, op.now)] + Without(l, op.key);
        assert pushed[1..] == Without(l, op.key);
        TakeKeeps(pushed, c.maxEntries, op.key);
      } else if op.Get? && HasKey(l, op.key) {
        assert ([Find(l, op.key).value] + Without(l, op.key))[1..] == Without(l, op.key);
      }
    }
  }

  lemma {:induction false} RunKeeps<K, V>(c: Config, ops: seq<Op<K, V>>)
    ensures Distinct(Run(c, ops)) && |Run(c, ops)| <= c.maxEntries
    ensures forall i, j :: 0 <= i < j < |Run(c, ops)| ==> Run(c, ops)[i].key != Run(c, ops)[j].key
  {
    if ops == [] {
    } else {
      RunKeeps(c, ops[..|ops| - 1]);
      StepKeeps(c, Run(c, ops[..|ops| - 1]), ops[|ops| - 1]);
      DistinctMeaning(Run(c, ops));
    }
  }

  // ----------------------------------------------- a hit is the latest put

  /** The latest value put for a key and when, unless it was invalidated since: a cache without limits. */
  function Latest<K(==), V>(ops: seq<Op<K, V>>, k: K): Option<Slot<K, V>> {
    if ops == [] then None
    else
      var before, op := ops[..|ops| - 1], ops[|ops| - 1];
      match op
      case Get(_, _) => Latest(before, k)
      case Put(key, v, now, fails) => if key == k && !fails then Some(Slot(k, v, now)) else Latest(before, k)
      case Invalidate(key) => if key == k then None else Latest(before, k)
      case Clear => None
  }

  lemma StepFinds<K, V>(c: Config, l: seq<Slot<K, V>>, op: Op<K, V>, k: K)
    requires HasKey(Step(c, l, op), k)
    ensures !op.Clear? && !(op.Invalidate? && op.key == k)
    ensures if op.Put? && op.key == k && !op.fails && c.maxEntries > 0 && c.ttl > 0
            then Find(Step(c, l, op), k) == Some(Slot(k, op.value, op.now))
            else Find(Step(c, l, op), k) == Find(l, k)
  {
    FindWithout(l, k, op.key);
    FindMeaning(l, op.key);
    if op.Put? {
      var pushed := [Slot(op.key, op.value, op.now)] + Without(l, op.key);
      assert pushed[1..] == Without(l, op.key);
      TakeKeeps(pushed, c.maxEntries, k);
    } else if op.Get? && HasKey(l, op.key) {
      assert ([Find(l, op.key).value] + Without(l, op.key))[1..] == Without(l, op.key);
    }
  }

  /** With no capacity or no time to live nothing is ever stored. */
  lemma {:induction false} DisabledIsEmpty<K, V>(c: Config, ops: seq<Op<K, V>>)
    requires c.maxEntries == 0 || c.ttl <= 0
    ensures Run(c, ops) == []
  {
    if ops == [] {
    } else {
      DisabledIsEmpty(c, ops[..|ops| - 1]);
    }
  }

  /**
   In every reachable state a cached slot is the latest one put for its key since the key was last
   invalidated or the cache cleared; so a hit returns that value, and not past its time to live. */
  lemma {:induction false} HitIsLatest<K, V>(c: Config, ops: seq<Op<K, V>>, k: K, now: int)
    ensures HasKey(Run(c, ops), k) ==> Latest(ops, k) == Find(Run(c, ops), k)
    ensures Hit(c, Run(c, ops), k, now).Some? ==>
              Latest(ops, k).Some? && Hit(c, Run(c, ops), k, now) == Some(Latest(ops, k).value.value)
              && now - Latest(ops, k).value.at <= c.ttl
  {
    if ops == [] {
    } else {
      var before, op := ops[..|ops| - 1], ops[|ops| - 1];
      HitIsLatest(c, before, k, now);
      if c.maxEntries == 0 || c.ttl <= 0 {
        DisabledIsEmpty(c, ops);
      } else if HasKey(Run(c, ops), k) {
        StepFinds(c, Run(c, before), op, k);
      }
    }
  }

  // --------------------------------------------- a recently used key stays

  /** The keys more recent than k. */
  function Ahead<K(==), V>(l: seq<Slot<K, V>>, k: K): set<K> {
    if l == [] || l[0].key == k then {} else {l[0].key} + Ahead(l[1..], k)
  }

  lemma {:induction false} AheadAreOthers<K, V>(l: seq<Slot<K, V>>, k: K)
    ensures forall x :: x in Ahead(l, k) ==> HasKey(l, x) && x != k
  {
    if l == [] || l[0].key == k {
    } else {
      AheadAreOthers(l[1..], k);
    }
  }

  lemma {:induction false} AheadWithout<K, V>(l: seq<Slot<K, V>>, k: K, other: K)
    requires HasKey(l, k) && k != other
    ensures Ahead(Without(l, other), k) == Ahead(l, k) - {other}
  {
    WithoutUnfold(l, other);
    if l[0].key != k {
      AheadWithout(l[1..], k, other);
    } else {
      assert Without(l, other)[0] == l[0];
    }
  }

  /** Among distinct keys, k survives a cut exactly when fewer keys than the cut are ahead of it. */
  lemma {:induction false} TakeFinds<K, V>(l: seq<Slot<K, V>>, n: nat, k: K)
    requires Distinct(l) && HasKey(l, k)
    ensures HasKey(Take(l, n), k) <==> |Ahead(l, k)| < n
    ensures HasKey(Take(l, n), k) ==> Ahead(Take(l, n), k) == Ahead(l, k)
  {
    if l[0].key != k {
      AheadAreOthers(l[1..], k);
      assert l[0].key !in Ahead(l[1..], k);
      if n > 0 {
        TakeFinds(l[1..], n - 1, k);
        assert Take(l, n)[1..] == Take(l[1..], n - 1);
      }
    } else if n > 0 {
      assert Take(l, n)[0] == l[0];
    }
  }

  /** Moving another key to the front puts that key ahead of k, and nothing else. */
  lemma PushAhead<K, V>(l: seq<Slot<K, V>>, x: Slot<K, V>, k: K)
    requires Distinct(l) && HasKey(l, k) && x.key != k
    ensures var pushed := [x] + Without(l, x.key);
            Distinct(pushed) && HasKey(pushed, k) && Ahead(pushed, k) == Ahead(l, k) + {x.key}
  {
    var rest := Without(l, x.key);
    assert ([x] + rest)[1..] == rest;
    FindWithout(l, k, x.key);
    FindWithout(l, x.key, x.key);
    WithoutSize(l, x.key);
    AheadWithout(l, k, x.key);
    assert Ahead([x] + rest, k) == {x.key} + (Ahead(l, k) - {x.key});
  }

  /** An operation on another key puts at most that key ahead of k, and drops k only off the end. */
  lemma StepAhead<K, V>(c: Config, l: seq<Slot<K, V>>, op: Op<K, V>, k: K)
    requires Distinct(l) && |l| <= c.maxEntries && HasKey(l, k) && !op.Clear? && op.key != k
    ensures |Ahead(l, k) + Touch(op)| < c.maxEntries ==>
              HasKey(Step(c, l, op), k) && Ahead(Step(c, l, op), k) <= Ahead(l, k) + Touch(op)
  {
    FindWithout(l, k, op.key);
    AheadWithout(l, k, op.key);
    FindMeaning(l, op.key);
    hide Ahead, Take, Without, Find, Distinct;
    if op.Put? {
      var x := Slot(op.key, op.value, op.now);
      PushAhead(l, x, k);
      TakeFinds([x] + Without(l, op.key), c.maxEntries, k);
    } else if op.Get? && Find(l, op.key).Some? {
      PushAhead(l, Find(l, op.key).value, k);
    }
  }

  /** A put that fails changes nothing. */
  predicate FailedPut<K, V>(op: Op<K, V>) {
    op.Put? && op.fails
  }

  function Touch<K(==), V>(op: Op<K, V>): set<K> {
    if op.Get? || (op.Put? && !op.fails) then {op.key} else {}
  }

  /** No operation of the stretch clears the cache or concerns k, but for puts of k that fail. */
  predicate LeavesAlone<K(==), V>(ops: seq<Op<K, V>>, k: K) {
    forall i :: 0 <= i < |ops| ==> FailedPut(ops[i]) || (!ops[i].Clear? && ops[i].key != k)
  }

  /** The keys that a stretch of operations gets or stores. */
  function Touched<K(==), V>(ops: seq<Op<K, V>>): set<K> {
    if ops == [] then {} else Touched(ops[..|ops| - 1]) + Touch(ops[|ops| - 1])
  }

  lemma {:induction false} AheadOfKept<K, V>(c: Config, ops: seq<Op<K, V>>, post: seq<Op<K, V>>, k: K)
    requires HasKey(Run(c, ops), k) && Ahead(Run(c, ops), k) == {}
    requires LeavesAlone(post, k)
    requires |Touched(post)| < c.maxEntries
    ensures HasKey(Run(c, ops + post), k) && Ahead(Run(c, ops + post), k) <= Touched(post)
    ensures Find(Run(c, ops + post), k) == Find(Run(c, ops), k)
  {
    if post == [] {
      assert ops + post == ops;
    } else {
      var before, op := post[..|post| - 1], post[|post| - 1];
      assert (ops + post)[..|ops + post| - 1] == ops + before;
      Subset(Touched(before), Touched(post));
      AheadOfKept(c, ops, before, k);
      var l := Run(c, ops + before);
      RunKeeps(c, ops + before);
      Subset(Ahead(l, k) + Touch(op), Touched(post));
      if !FailedPut(op) {
        StepAhead(c, l, op, k);
        StepFinds(c, l, op, k);
      }
    }
  }

  lemma Subset<T>(a: set<T>, b: set<T>)
    requires a <= b
    ensures |a| <= |b|
  {
    if a != b {
      var x :| x in b && x !in a;
      assert a <= b - {x};
      Subset(a, b - {x});
    }
  }

  /** The operation stores k or hits it. */
  predicate Uses<K(==), V>(c: Config, l: seq<Slot<K, V>>, op: Op<K, V>, k: K) {
    (op.Put? && op.key == k && !op.fails) || (op.Get? && op.key == k && Hit(c, l, k, op.now).Some?)
  }

  /**
   A key that was put or hit, and then neither invalidated nor cleared, stays cached with its value
   while fewer than max_entries distinct other keys are used, and a get of it hits exactly as long
   as it is not older than its time to live. */
  lemma RecentlyUsedStays<K, V>(c: Config, ops: seq<Op<K, V>>, use: Op<K, V>, post: seq<Op<K, V>>, k: K, now: int)
    requires c.maxEntries > 0 && c.ttl > 0 && Uses(c, Run(c, ops), use, k)
    requires LeavesAlone(post, k)
    requires |Touched(post)| < c.maxEntries
    ensures var latest := Latest(ops + [use], k);
            && latest.Some?
            && Find(Run(c, ops + [use] + post), k) == latest
            && Hit(c, Run(c, ops + [use] + post), k, now)
               == if now - latest.value.at > c.ttl then None else Some(latest.value.value)
  {
    var l := Run(c, ops);
    assert (ops + [use])[..|ops + [use]| - 1] == ops;
    FindMeaning(l, k);
    var used := Step(c, l, use);
    assert used[0].key == k;
    HitIsLatest(c, ops + [use], k, now);
    AheadOfKept(c, ops + [use], post, k);
  }

  /** Under stores alone the bound is exact: k is evicted by the max_entries-th distinct other key. */
  lemma {:induction false} EvictionIsExact<K, V>(c: Config, ops: seq<Op<K, V>>, post: seq<Op<K, V>>, k: K)
    requires c.maxEntries > 0 && c.ttl > 0
    requires HasKey(Run(c, ops), k) && Ahead(Run(c, ops), k) == {}
    requires forall i :: 0 <= i < |post| ==> post[i].Put? && !post[i].fails && post[i].key != k
    ensures HasKey(Run(c, ops + post), k) <==> |Touched(post)| < c.maxEntries
    ensures HasKey(Run(c, ops + post), k) ==> Ahead(Run(c, ops + post), k) == Touched(post)
  {
    if post == [] {
      assert ops + post == ops;
    } else {
      var before, op := post[..|post| - 1], post[|post| - 1];
      assert (ops + post)[..|ops + post| - 1] == ops + before;
      Subset(Touched(before), Touched(post));
      EvictionIsExact(c, ops, before, k);
      RunKeeps(c, ops + before);
      var l := Run(c, ops + before);
      if HasKey(l, k) {
        var x := Slot(op.key, op.value, op.now);
        PushAhead(l, x, k);
        TakeFinds([x] + Without(l, op.key), c.maxEntries, k);
      } else if HasKey(Step(c, l, op), k) {
        StepFinds(c, l, op, k);
      }
    }
  }

  // --------------------------------------------------- what an expiry does

  /** Removing a key leaves every other slot at its place. */
  lemma {:induction false} WithoutPlaces<K, V>(l: seq<Slot<K, V>>, k: K) returns (i: nat)
    requires Distinct(l) && HasKey(l, k)
    ensures i < |l| && l[i].key == k && Without(l, k) == l[..i] + l[i + 1..]
  {
    if l[0].key == k {
      WithoutAbsent(l[1..], k);
      i := 0;
    } else {
      i := WithoutPlaces(l[1..], k);
      WithoutUnfold(l, k);
      assert l[..i + 1] == [l[0]] + l[1..][..i] && l[i + 2..] == l[1..][i + 1..];
      assert [l[0]] + (l[1..][..i] + l[1..][i + 1..]) == [l[0]] + l[1..][..i] + l[1..][i + 1..];
      i := i + 1;
    }
  }

  /**
   A get that finds its key expired misses and leaves the cache in which the key was invalidated: the key
   is gone, the size is one less, and every other slot keeps its place. */
  lemma ExpiredGetInvalidates<K, V>(c: Config, ops: seq<Op<K, V>>, k: K, now: int) returns (i: nat)
    requires HasKey(Run(c, ops), k) && now - Find(Run(c, ops), k).value.at > c.ttl
    ensures var l, l' := Run(c, ops), Run(c, ops + [Op.Get(k, now)]);
            && Hit(c, l, k, now) == None
            && l' == Run(c, ops + [Op.Invalidate(k)])
            && !HasKey(l', k) && |l'| == |l| - 1
            && i < |l| && l[i].key == k && l' == l[..i] + l[i + 1..]
  {
    var l := Run(c, ops);
    var get, invalidate := Op<K, V>.Get(k, now), Op<K, V>.Invalidate(k);
    assert (ops + [get])[..|ops + [get]| - 1] == ops && (ops + [invalidate])[..|ops + [invalidate]| - 1] == ops;
    RunKeeps(c, ops);
    WithoutSize(l, k);
    FindWithout(l, k, k);
    i := WithoutPlaces(l, k);
  }

  /** The keys of a set that are still cached: invalidated and expired ones are not. */
  function StillCached<K(==), V>(l: seq<Slot<K, V>>, keys: set<K>): set<K> {
    set x | x in keys && HasKey(l, x)
  }

  /** The operation puts its key in front. */
  predicate Fronts<K(==), V>(c: Config, l: seq<Slot<K, V>>, op: Op<K, V>) {
    (op.Put? && !op.fails) || (op.Get? && Hit(c, l, op.key, op.now).Some?)
  }

  /** A put of another key: who is ahead of k afterwards, and when exactly k is lost. */
  lemma PutAhead<K, V>(c: Config, l: seq<Slot<K, V>>, op: Op<K, V>, k: K)
    requires Distinct(l) && |l| <= c.maxEntries && HasKey(l, k) && op.Put? && !op.fails && op.key != k && c.ttl > 0
    ensures HasKey(Step(c, l, op), k) <==> |Ahead(l, k) + {op.key}| < c.maxEntries
    ensures HasKey(Step(c, l, op), k) ==> Ahead(Step(c, l, op), k) == Ahead(l, k) + {op.key}
  {
    FindMeaning(l, k);
    var x := Slot(op.key, op.value, op.now);
    PushAhead(l, x, k);
    TakeFinds([x] + Without(l, op.key), c.maxEntries, k);
  }

  /** Any other operation on another key: k stays, and only the key it concerns moves or goes. */
  lemma OtherAhead<K, V>(c: Config, l: seq<Slot<K, V>>, op: Op<K, V>, k: K)
    requires Distinct(l) && HasKey(l, k) && !op.Clear? && !(op.Put? && !op.fails) && op.key != k
    ensures var l' := Step(c, l, op);
            && HasKey(l', k)
            && Ahead(l', k) == if Fronts(c, l, op) then Ahead(l, k) + {op.key}
                               else if HasKey(l', op.key) then Ahead(l, k)
                               else Ahead(l, k) - {op.key}
  {
    FindWithout(l, k, op.key);
    FindWithout(l, op.key, op.key);
    AheadWithout(l, k, op.key);
    AheadAreOthers(l, k);
    FindMeaning(l, op.key);
    if op.Get? && Fronts(c, l, op) {
      PushAhead(l, Find(l, op.key).value, k);
    }
  }

  /** Ahead of a used key are exactly the keys got or stored since then that are still cached. */
  lemma {:induction false} AheadAreStillCached<K, V>(c: Config, ops: seq<Op<K, V>>, post: seq<Op<K, V>>, k: K)
    requires c.maxEntries > 0 && c.ttl > 0
    requires HasKey(Run(c, ops), k) && Ahead(Run(c, ops), k) == {} && LeavesAlone(post, k)
    ensures var l := Run(c, ops + post); HasKey(l, k) ==> Ahead(l, k) == StillCached(l, Touched(post))
  {
    if post == [] {
      assert ops + post == ops;
    } else {
      var before, op := post[..|post| - 1], post[|post| - 1];
      assert (ops + post)[..|ops + post| - 1] == ops + before;
      AheadAreStillCached(c, ops, before, k);
      RunKeeps(c, ops + before);
      var l := Run(c, ops + before);
      if HasKey(Step(c, l, op), k) && !FailedPut(op) {
        StepFinds(c, l, op, k);
        StepAheadIsCached(c, l, op, k, Touched(before));
      }
    }
  }

  lemma StepAheadIsCached<K, V>(c: Config, l: seq<Slot<K, V>>, op: Op<K, V>, k: K, touched: set<K>)
    requires Distinct(l) && |l| <= c.maxEntries && c.maxEntries > 0 && c.ttl > 0
    requires !op.Clear? && op.key != k && HasKey(l, k) && HasKey(Step(c, l, op), k) && !FailedPut(op)
    requires Ahead(l, k) == StillCached(l, touched)
    ensures Ahead(Step(c, l, op), k) == StillCached(Step(c, l, op), touched + Touch(op))
  {
    var l' := Step(c, l, op);
    if op.Put? {
      PutAhead(c, l, op, k);
    } else {
      OtherAhead(c, l, op, k);
    }
    AheadAreOthers(l', k);
    FindWithout(l, op.key, op.key);
    hide Ahead, Find, Step;
    forall x | HasKey(l', x) && x != op.key
      ensures HasKey(l, x)
    {
      StepFinds(c, l, op, x);
    }
    ExpiredIsGone(c, l, op);
  }

  lemma ExpiredIsGone<K, V>(c: Config, l: seq<Slot<K, V>>, op: Op<K, V>)
    ensures op.Get? && !Fronts(c, l, op) ==> !HasKey(Step(c, l, op), op.key)
  {
    if op.Get? {
      FindWithout(l, op.key, op.key);
    }
  }

  /**
   When exactly a put evicts a key: when, with the key put, max_entries other keys used since then are
   still cached. A key whose entry expired and was looked up, or was invalidated, is not among them; so a
   dead entry that was looked up never evicts a live one. */
  lemma EvictionCountsCached<K, V>(c: Config, ops: seq<Op<K, V>>, post: seq<Op<K, V>>, put: Op<K, V>, k: K)
    requires c.maxEntries > 0 && c.ttl > 0
    requires HasKey(Run(c, ops), k) && Ahead(Run(c, ops), k) == {} && LeavesAlone(post, k)
    requires HasKey(Run(c, ops + post), k) && put.Put? && !put.fails && put.key != k
    ensures HasKey(Run(c, ops + post + [put]), k)
            <==> |StillCached(Run(c, ops + post), Touched(post)) + {put.key}| < c.maxEntries
  {
    AheadAreStillCached(c, ops, post, k);
    RunKeeps(c, ops + post);
    assert (ops + post + [put])[..|ops + post + [put]| - 1] == ops + post;
    PutAhead(c, Run(c, ops + post), put, k);
  }

  // ------------------------------------- a larger cache hits at least as often

  /** The small list is the large one with some slots left out. */
  predicate SubList<K(==), V(==)>(small: seq<Slot<K, V>>, large: seq<Slot<K, V>>) {
    small == []
    || (large != [] && if small[0] == large[0] then SubList(small[1..], large[1..]) else SubList(small, large[1..]))
  }

  lemma {:induction false} SubListFinds<K, V>(small: seq<Slot<K, V>>, large: seq<Slot<K, V>>, k: K)
    requires SubList(small, large) && Distinct(large)
    ensures HasKey(small, k) ==> Find(small, k) == Find(large, k)
    ensures |small| <= |large|
  {
    if small == [] {
    } else {
      if small[0] == large[0] {
        SubListFinds(small[1..], large[1..], k);
      } else {
        SubListFinds(small, large[1..], k);
      }
    }
  }

  lemma {:induction false} SubListTail<K, V>(small: seq<Slot<K, V>>, large: seq<Slot<K, V>>)
    requires small != [] && SubList(small, large)
    ensures SubList(small[1..], large)
  {
    if small[0] != large[0] {
      SubListTail(small, large[1..]);
      SubListSkip(small[1..], large);
    } else {
      SubListSkip(small[1..], large);
    }
  }

  /** A slot more on the large side does no harm. */
  lemma {:induction false} SubListSkip<K, V>(small: seq<Slot<K, V>>, large: seq<Slot<K, V>>)
    requires large != [] && SubList(small, large[1..])
    ensures SubList(small, large)
  {
    if small == [] || small[0] != large[0] {
    } else {
      SubListTail(small, large[1..]);
    }
  }

  lemma {:induction false} SubListWithout<K, V>(small: seq<Slot<K, V>>, large: seq<Slot<K, V>>, k: K)
    requires SubList(small, large)
    ensures SubList(Without(small, k), Without(large, k))
  {
    if small == [] {
    } else {
      WithoutUnfold(small, k);
      WithoutUnfold(large, k);
      if small[0] == large[0] {
        SubListWithout(small[1..], large[1..], k);
      } else {
        SubListWithout(small, large[1..], k);
        if large[0].key != k {
          SubListSkip(Without(small, k), Without(large, k));
        }
      }
    }
  }

  lemma {:induction false} SubListPrefix<K, V>(small: seq<Slot<K, V>>, large: seq<Slot<K, V>>, n: nat)
    requires SubList(small, large) && n <= |small|
    ensures SubList(small[..n], large)
  {
    if n == 0 {
    } else {
      if small[0] == large[0] {
        SubListPrefix(small[1..], large[1..], n - 1);
        assert small[..n][1..] == small[1..][..n - 1];
      } else {
        SubListPrefix(small, large[1..], n);
      }
    }
  }

  lemma {:induction false} SubListDropLast<K, V>(small: seq<Slot<K, V>>, large: seq<Slot<K, V>>)
    requires SubList(small, large) && small != []
    ensures SubList(small[..|small| - 1], large[..|large| - 1])
  {
    if small[0] == large[0] {
      if |small| > 1 {
        SubListDropLast(small[1..], large[1..]);
        assert small[..|small| - 1][1..] == small[1..][..|small| - 2];
        assert large[..|large| - 1][1..] == large[1..][..|large| - 2];
      }
    } else {
      SubListDropLast(small, large[1..]);
      assert large[..|large| - 1][1..] == large[1..][..|large| - 2];
    }
  }

  /** The inductive invariant: the small list is a sublist, and the sizes differ by at most the capacities. */
  predicate Related<K(==), V(==)>(smaller: Config, larger: Config, small: seq<Slot<K, V>>, large: seq<Slot<K, V>>) {
    && SubList(small, large) && Distinct(small) && Distinct(large)
    && |small| <= smaller.maxEntries && |large| <= larger.maxEntries
    && |large| - |small| <= larger.maxEntries - smaller.maxEntries
  }

  lemma PutRelated<K, V>(smaller: Config, larger: Config, small: seq<Slot<K, V>>, large: seq<Slot<K, V>>, x: Slot<K, V>)
    requires Related(smaller, larger, small, large) && smaller.maxEntries > 0
    ensures var s := Take([x] + Without(small, x.key), smaller.maxEntries);
            var l := Take([x] + Without(large, x.key), larger.maxEntries);
            SubList(s, l) && |l| - |s| <= larger.maxEntries - smaller.maxEntries
  {
    var s, l := [x] + Without(small, x.key), [x] + Without(large, x.key);
    SubListWithout(small, large, x.key);
    WithoutSize(small, x.key);
    WithoutSize(large, x.key);
    SubListFinds(small, large, x.key);
    assert s[1..] == Without(small, x.key) && l[1..] == Without(large, x.key);
    assert SubList(s, l);
    if |l| > larger.maxEntries {
      SubListDropLast(s, l);
    } else if |s| > smaller.maxEntries {
      SubListPrefix(s, l, smaller.maxEntries);
    }
  }

  lemma GetRelated<K, V>(smaller: Config, larger: Config, small: seq<Slot<K, V>>, large: seq<Slot<K, V>>,
                         k: K, now: int)
    requires Related(smaller, larger, small, large) && smaller.ttl == larger.ttl
    ensures var s, l := Step(smaller, small, Op.Get(k, now)), Step(larger, large, Op.Get(k, now));
            SubList(s, l) && |l| - |s| <= larger.maxEntries - smaller.maxEntries
  {
    SubListWithout(small, large, k);
    SubListFinds(small, large, k);
    WithoutSize(small, k);
    WithoutSize(large, k);
    if HasKey(large, k) {
      var x := Find(large, k).value;
      var s, l := [x] + Without(small, k), [x] + Without(large, k);
      assert s[1..] == Without(small, k) && l[1..] == Without(large, k);
      if !HasKey(small, k) {
        WithoutAbsent(small, k);
        SubListSkip(small, l);
      }
    }
  }

  lemma StepRelated<K, V>(smaller: Config, larger: Config, small: seq<Slot<K, V>>, large: seq<Slot<K, V>>, op: Op<K, V>)
    requires Related(smaller, larger, small, large)
    requires smaller.ttl == larger.ttl && smaller.maxEntries <= larger.maxEntries
    ensures Related(smaller, larger, Step(smaller, small, op), Step(larger, large, op))
  {
    StepKeeps(smaller, small, op);
    StepKeeps(larger, large, op);
    match op
    case Get(k, now) => GetRelated(smaller, larger, small, large, k, now);
    case Put(k, v, now, fails) =>
      if smaller.maxEntries > 0 && smaller.ttl > 0 && !fails {
        PutRelated(smaller, larger, small, large, Slot(k, v, now));
      }
    case Invalidate(k) =>
      SubListWithout(small, large, k);
      SubListFinds(small, large, k);
      WithoutSize(small, k);
      WithoutSize(large, k);
    case Clear =>
  }

  /**
   Capacity monotonicity: run the same operations with the same clock readings on two caches of
   equal time to live; whatever the smaller one hits, the larger one hits, with the same value. */
  lemma {:induction false} LargerCacheHits<K, V>(smaller: Config, larger: Config, ops: seq<Op<K, V>>, k: K, now: int)
    requires smaller.maxEntries <= larger.maxEntries && smaller.ttl == larger.ttl
    ensures Related(smaller, larger, Run(smaller, ops), Run(larger, ops))
    ensures Hit(smaller, Run(smaller, ops), k, now).Some? ==>
              Hit(larger, Run(larger, ops), k, now) == Hit(smaller, Run(smaller, ops), k, now)
  {
    if ops == [] {
    } else {
      var before, op := ops[..|ops| - 1], ops[|ops| - 1];
      LargerCacheHits(smaller, larger, before, k, now);
      StepRelated(smaller, larger, Run(smaller, before), Run(larger, before), op);
    }
    SubListFinds(Run(smaller, ops), Run(larger, ops), k);
  }
}

/**
 The cache object (include/ncei/cache.hpp): a hash map and a recency list that have to agree. Every
 method is proved to take the step of the simple recency list of Recency.dfy. */
module LruCache {
  import opened Core
  import opened Recency

  // A node of the std::list, known by its iterator, and an entry of the hash map.
  datatype Node<K> = Node(id: nat, key: K)
  datatype CacheEntry<V> = CacheEntry(value: V, insertedAt: int, listIt: nat)

  /** The list without the node an iterator points at: erase, and the first half of splice. */
  function Erase<K>(order: seq<Node<K>>, it: nat): seq<Node<K>> {
    if order == [] then []
    else if order[0].id == it then order[1..]
    else [order[0]] + Erase(order[1..], it)
  }

  predicate NoNode<K>(order: seq<Node<K>>, it: nat) {
    order == [] || (order[0].id != it && NoNode(order[1..], it))
  }

  /** List and map agree: same keys, each once, each entry pointing at its own node. */
  ghost predicate Agree<K, V>(order: seq<Node<K>>, table: map<K, CacheEntry<V>>) {
    if order == [] then table == map[]
    else
      var first := order[0];
      && first.key in table && table[first.key].listIt == first.id
      && NoNode(order[1..], first.id)
      && Agree(order[1..], table - {first.key})
  }

  /** The recency list that the two structures stand for. */
  ghost function SlotsOf<K, V>(order: seq<Node<K>>, table: map<K, CacheEntry<V>>): (l: seq<Slot<K, V>>)
    requires Agree(order, table)
    ensures |l| == |order|
  {
    if order == [] then []
    else
      var k := order[0].key;
      [Slot(k, table[k].value, table[k].insertedAt)] + SlotsOf(order[1..], table - {k})
  }

  lemma {:induction false} AgreeSize<K, V>(order: seq<Node<K>>, table: map<K, CacheEntry<V>>)
    requires Agree(order, table)
    ensures |table| == |order|
  {
    if order == [] {
    } else {
      var rest := table - {order[0].key};
      AgreeSize(order[1..], rest);
      assert rest.Keys == table.Keys - {order[0].key};
    }
  }

  lemma {:induction false} NodeOf<K, V>(order: seq<Node<K>>, table: map<K, CacheEntry<V>>, k: K) returns (i: nat)
    requires Agree(order, table) && k in table
    ensures i < |order| && order[i] == Node(table[k].listIt, k)
  {
    if order[0].key == k {
      i := 0;
    } else {
      i := NodeOf(order[1..], table - {order[0].key}, k);
      i := i + 1;
    }
  }

  lemma {:induction false} KeyOf<K, V>(order: seq<Node<K>>, table: map<K, CacheEntry<V>>, i: nat)
    requires Agree(order, table) && i < |order|
    ensures var k := order[i].key;
            && k in table && table[k].listIt == order[i].id
            && SlotsOf(order, table)[i] == Slot(k, table[k].value, table[k].insertedAt)
            && forall j :: i < j < |order| ==> order[j].key != k
  {
    if i > 0 {
      KeyOf(order[1..], table - {order[0].key}, i - 1);
    } else {
      forall j | 0 < j < |order|
        ensures order[j].key != order[0].key
      {
        KeyOf(order[1..], table - {order[0].key}, j - 1);
        assert order[1..][j - 1] == order[j];
      }
    }
  }

  /** Agreement, position by position: the list holds the map's keys, each once, each linked both ways. */
  lemma AgreeMeaning<K, V>(order: seq<Node<K>>, table: map<K, CacheEntry<V>>)
    requires Agree(order, table)
    ensures |table| == |order|
    ensures forall k :: k in table ==> exists i :: 0 <= i < |order| && order[i] == Node(table[k].listIt, k)
    ensures forall i :: 0 <= i < |order| ==>
              order[i].key in table && table[order[i].key].listIt == order[i].id
              && SlotsOf(order, table)[i]
                 == Slot(order[i].key, table[order[i].key].value, table[order[i].key].insertedAt)
    ensures forall i, j :: 0 <= i < j < |order| ==> order[i].key != order[j].key
  {
    AgreeSize(order, table);
    forall k | k in table
      ensures exists i :: 0 <= i < |order| && order[i] == Node(table[k].listIt, k)
    {
      var i := NodeOf(order, table, k);
    }
    forall i | 0 <= i < |order|
      ensures order[i].key in table && table[order[i].key].listIt == order[i].id
      ensures SlotsOf(order, table)[i] == Slot(order[i].key, table[order[i].key].value, table[order[i].key].insertedAt)
      ensures forall j :: i < j < |order| ==> order[j].key != order[i].key
    {
      KeyOf(order, table, i);
    }
  }

  // ------------------------------------------- what each change does to both

  lemma {:induction false} FindInTable<K, V>(order: seq<Node<K>>, table: map<K, CacheEntry<V>>, k: K)
    requires Agree(order, table)
    ensures Find(SlotsOf(order, table), k)
            == if k in table then Some(Slot(k, table[k].value, table[k].insertedAt)) else None
  {
    if order == [] {
    } else {
      FindInTable(order[1..], table - {order[0].key}, k);
    }
  }

  lemma {:induction false} AgreeIsDistinct<K, V>(order: seq<Node<K>>, table: map<K, CacheEntry<V>>)
    requires Agree(order, table)
    ensures Distinct(SlotsOf(order, table))
  {
    if order == [] {
    } else {
      AgreeIsDistinct(order[1..], table - {order[0].key});
      FindInTable(order[1..], table - {order[0].key}, order[0].key);
    }
  }

  lemma {:induction false} EraseOther<K>(order: seq<Node<K>>, it: nat, other: nat)
    requires NoNode(order, other)
    ensures NoNode(Erase(order, it), other)
  {
    if order == [] || order[0].id == it {
    } else {
      EraseOther(order[1..], it, other);
      assert Erase(order, it)[1..] == Erase(order[1..], it);
    }
  }

  /** Erasing the node of a key from the list and the key from the map removes it from the slots. */
  lemma {:induction false} EraseKey<K, V>(order: seq<Node<K>>, table: map<K, CacheEntry<V>>, k: K)
    requires Agree(order, table) && k in table
    ensures var order' := Erase(order, table[k].listIt);
            && Agree(order', table - {k})
            && SlotsOf(order', table - {k}) == Without(SlotsOf(order, table), k)
            && NoNode(order', table[k].listIt) && |order'| == |order| - 1
  {
    var first := order[0];
    var rest := table - {first.key};
    if first.key == k {
      AgreeIsDistinct(order, table);
      FindInTable(order[1..], rest, k);
      WithoutAbsent(SlotsOf(order[1..], rest), k);
    } else {
      var it := table[k].listIt;
      EraseKey(order[1..], rest, k);
      NodeOfKey(order[1..], rest, k);
      EraseOther(order[1..], it, first.id);
      var order' := Erase(order, it);
      assert order'[1..] == Erase(order[1..], it);
      assert table - {k} - {first.key} == rest - {k};
    }
  }

  lemma {:induction false} NodeOfKey<K, V>(order: seq<Node<K>>, table: map<K, CacheEntry<V>>, k: K)
    requires Agree(order, table) && k in table
    ensures !NoNode(order, table[k].listIt)
  {
    if order[0].key == k {
    } else {
      NodeOfKey(order[1..], table - {order[0].key}, k);
    }
  }

  /** A node in front for a key that was not there, and its entry. */
  lemma PushNew<K, V>(order: seq<Node<K>>, table: map<K, CacheEntry<V>>, k: K, e: CacheEntry<V>)
    requires Agree(order, table) && k !in table && NoNode(order, e.listIt)
    ensures var order', table' := [Node(e.listIt, k)] + order, table[k := e];
            && Agree(order', table')
            && SlotsOf(order', table') == [Slot(k, e.value, e.insertedAt)] + SlotsOf(order, table)
  {
    var order', table' := [Node(e.listIt, k)] + order, table[k := e];
    assert order'[1..] == order && table' - {k} == table;
  }

  /** Updating the entry of a key and moving its node to the front. */
  lemma SpliceKey<K, V>(order: seq<Node<K>>, table: map<K, CacheEntry<V>>, k: K, e: CacheEntry<V>)
    requires Agree(order, table) && k in table && e.listIt == table[k].listIt
    ensures var order', table' := [Node(e.listIt, k)] + Erase(order, e.listIt), table[k := e];
            && Agree(order', table')
            && SlotsOf(order', table') == [Slot(k, e.value, e.insertedAt)] + Without(SlotsOf(order, table), k)
  {
    EraseKey(order, table, k);
    PushNew(Erase(order, e.listIt), table - {k}, k, e);
    assert (table - {k})[k := e] == table[k := e];
  }

  /** Evicting the back of the list. */
  lemma {:induction false} PopBack<K, V>(order: seq<Node<K>>, table: map<K, CacheEntry<V>>)
    requires Agree(order, table) && order != []
    ensures var n := |order| - 1;
            && order[n].key in table
            && Agree(order[..n], table - {order[n].key})
            && SlotsOf(order[..n], table - {order[n].key}) == SlotsOf(order, table)[..n]
  {
    var n, first := |order| - 1, order[0];
    if n == 0 {
    } else {
      var rest := table - {first.key};
      PopBack(order[1..], rest);
      var last := order[n].key;
      assert order[1..][n - 1] == order[n];
      assert order[..n][1..] == order[1..][..n - 1];
      assert table - {last} - {first.key} == rest - {last};
      PrefixNoNode(order[1..], n - 1, first.id);
      assert SlotsOf(order, table)[..n] == [SlotsOf(order, table)[0]] + SlotsOf(order[1..], rest)[..n - 1];
    }
  }

  lemma {:induction false} PrefixNoNode<K>(order: seq<Node<K>>, n: nat, it: nat)
    requires NoNode(order, it) && n <= |order|
    ensures NoNode(order[..n], it)
  {
    if n == 0 {
    } else {
      PrefixNoNode(order[1..], n - 1, it);
      assert order[..n][1..] == order[1..][..n - 1];
    }
  }

  /** All nodes were allocated before: a new one is none of them. */
  predicate Allocated<K>(order: seq<Node<K>>, nextId: nat) {
    forall i :: 0 <= i < |order| ==> order[i].id < nextId
  }

  lemma {:induction false} NewNode<K>(order: seq<Node<K>>, nextId: nat)
    requires Allocated(order, nextId)
    ensures NoNode(order, nextId)
  {
    if order == [] {
    } else {
      NewNode(order[1..], nextId);
    }
  }

  lemma {:induction false} EraseAllocated<K>(order: seq<Node<K>>, it: nat, nextId: nat)
    requires Allocated(order, nextId)
    ensures Allocated(Erase(order, it), nextId)
  {
    if order == [] || order[0].id == it {
    } else {
      EraseAllocated(order[1..], it, nextId);
    }
  }

  lemma NodeAllocated<K, V>(order: seq<Node<K>>, table: map<K, CacheEntry<V>>, k: K, nextId: nat)
    requires Agree(order, table) && k in table && Allocated(order, nextId)
    ensures table[k].listIt < nextId
    ensures Allocated([Node(table[k].listIt, k)] + Erase(order, table[k].listIt), nextId)
  {
    var i := NodeOf(order, table, k);
    EraseAllocated(order, table[k].listIt, nextId);
  }

  class LruCache<K(==), V> {
    const config: Config
    var order: seq<Node<K>>           // front = most recent, back = least recent
    var table: map<K, CacheEntry<V>>  // map_
    var nextId: nat                   // identity of the next list node to be allocated

    ghost predicate Valid()
      reads this
    {
      Agree(order, table) && |order| <= config.maxEntries && Allocated(order, nextId)
    }

    ghost function Slots(): seq<Slot<K, V>>
      reads this
      requires Agree(order, table)
    {
      SlotsOf(order, table)
    }

    constructor (c: Config)
      ensures Valid() && config == c && Slots() == []
    {
      config, order, table, nextId := c, [], map[], 0;
    }

    method Get(key: K, now: int) returns (r: Option<V>)
      requires Valid()
      modifies this
      ensures Valid() && Slots() == Step(config, old(Slots()), Op.Get(key, now))
      ensures r == Hit(config, old(Slots()), key, now)
    {
      FindInTable(order, table, key);
      if key !in table {
        return None;
      }
      var entry := table[key];
      EraseKey(order, table, key);
      EraseAllocated(order, entry.listIt, nextId);
      NodeAllocated(order, table, key, nextId);
      if now - entry.insertedAt > config.ttl {
        order := Erase(order, entry.listIt);
        table := table - {key};
        return None;
      }
      SpliceKey(order, table, key, entry);
      order := [Node(entry.listIt, key)] + Erase(order, entry.listIt);
      r := Some(entry.value);
    }

    /** False stands for an exception that leaves `put`. */
    method Put(key: K, value: V, now: int, fails: bool) returns (ok: bool)
      requires Valid()
      modifies this
      ensures Valid() && Slots() == Step(config, old(Slots()), Op.Put(key, value, now, fails))
      ensures ok <==> !(fails && config.maxEntries > 0 && config.ttl > 0)
      ensures !ok ==> Slots() == old(Slots())
    {
      if config.maxEntries == 0 || config.ttl <= 0 {
        return true;
      }
      FindInTable(order, table, key);
      if key in table {
        if fails {
          return false;
        }
        var it := table[key].listIt;
        NodeAllocated(order, table, key, nextId);
        EraseKey(order, table, key);
        SpliceKey(order, table, key, CacheEntry(value, now, it));
        table := table[key := CacheEntry(value, now, it)];
        order := [Node(it, key)] + Erase(order, it);
        return true;
      }
      order := [Node(nextId, key)] + order;
      if fails {
        order := order[1..];
        return false;
      }
      NewNode(old(order), nextId);
      PushNew(old(order), table, key, CacheEntry(value, now, nextId));
      WithoutAbsent(SlotsOf(old(order), table), key);
      table := table[key := CacheEntry(value, now, nextId)];
      nextId := nextId + 1;
      Evict();
      ok := true;
    }

    /** The eviction loop of `put`. */
    method Evict()
      requires Agree(order, table) && Allocated(order, nextId)
      modifies `order, `table
      ensures Valid() && Slots() == Take(old(Slots()), config.maxEntries)
    {
      AgreeSize(order, table);
      while |table| > config.maxEntries
        invariant Agree(order, table) && Allocated(order, nextId) && |table| == |order| <= |old(order)|
        invariant Slots() == old(Slots())[..|order|] && |order| >= Min(|old(order)|, config.maxEntries)
      {
        PopBack(order, table);
        table := table - {order[|order| - 1].key};
        order := order[..|order| - 1];
        AgreeSize(order, table);
      }
    }

    method Invalidate(key: K)
      requires Valid()
      modifies this
      ensures Valid() && Slots() == Step(config, old(Slots()), Op.Invalidate(key))
    {
      FindInTable(order, table, key);
      if key in table {
        EraseKey(order, table, key);
        EraseAllocated(order, table[key].listIt, nextId);
        order := Erase(order, table[key].listIt);
        table := table - {key};
      } else {
        WithoutAbsent(Slots(), key);
      }
    }

    method Clear()
      requires Valid()
      modifies this
      ensures Valid() && Slots() == Step(config, old(Slots()), Op.Clear)
    {
      table := map[];
      order := [];
    }

    method Size() returns (n: nat)
      requires Valid()
      ensures n == |Slots()| <= config.maxEntries
    {
      AgreeSize(order, table);
      n := |table|;
    }
  }
}

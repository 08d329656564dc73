/** LRU-cached maps over stable maps (ic-stable-structures/src/structure/cache/) refine the plain ones.

    The stable map is a `map`; the LRU cache keeps, after every insertion, an arbitrary part of its
    entries, which covers every capacity and every eviction order. */
module CachedMaps {
  import opened Wrappers

  function Get<K, V>(m: map<K, V>, k: K): (v: Option<V>)
    ensures v.Some? <==> k in m
    ensures v.Some? ==> v.value == m[k]
  {
    if k in m then Some(m[k]) else None
  }

  /** ic-stable-structures/src/structure/cache/lru.rs. */
  class SyncLruCache<K(==), V> {
    var entries: map<K, V>

    constructor ()
      ensures entries == map[]
    {
      entries := map[];
    }

    method Lookup(k: K) returns (v: Option<V>)
      ensures v == Get(entries, k)
    {
      v := Get(entries, k);
    }

    method ContainsKey(k: K) returns (b: bool)
      ensures b <==> k in entries
    {
      b := k in entries;
    }

    /** The new entry and any of the old ones may be evicted at once. */
    method Insert(k: K, v: V)
      modifies this
      ensures entries.Keys <= old(entries).Keys + {k}
      ensures forall j :: j in entries ==> entries[j] == old(entries)[k := v][j]
    {
      var all := entries[k := v];
      var kept: set<K> := *;
      entries := map j | j in all && j in kept :: all[j];
    }

    method Remove(k: K)
      modifies this
      ensures entries == old(entries) - {k}
    {
      entries := entries - {k};
    }

    method Clear()
      modifies this
      ensures entries == map[]
    {
      entries := map[];
    }

    method IsEmpty() returns (b: bool)
      ensures b <==> entries == map[]
    {
      b := entries == map[];
    }
  }

  datatype Op<K, V> =
    | DoGet(k: K)
    | DoContains(k: K)
    | DoInsert(k: K, v: V)
    | DoRemove(k: K)
    | DoLen
    | DoIsEmpty
    | DoClear

  datatype Answer<V> = Value(v: Option<V>) | Flag(b: bool) | Count(n: nat) | Done

  /** The plain map. */
  function Plain<K, V>(m: map<K, V>, op: Op<K, V>): (map<K, V>, Answer<V>) {
    match op
    case DoGet(k) => (m, Value(Get(m, k)))
    case DoContains(k) => (m, Flag(k in m))
    case DoInsert(k, v) => (m[k := v], Value(Get(m, k)))
    case DoRemove(k) => (m - {k}, Value(Get(m, k)))
    case DoLen => (m, Count(|m|))
    case DoIsEmpty => (m, Flag(m.Keys == {}))
    case DoClear => (map[], Done)
  }

  /** What each operation answers and changes, key by key. */
  lemma PlainSpec<K, V>(m: map<K, V>, op: Op<K, V>)
    ensures var (m', a) := Plain(m, op);
            match op
            case DoGet(k) => m' == m && a.Value? && (k in m ==> a.v == Some(m[k])) && (k !in m ==> a.v == None)
            case DoContains(k) => m' == m && a.Flag? && (a.b <==> k in m)
            case DoInsert(k, v) =>
              && m'.Keys == m.Keys + {k} && m'[k] == v && (forall j :: j in m && j != k ==> m'[j] == m[j])
              && a == Value(if k in m then Some(m[k]) else None)
            case DoRemove(k) =>
              && m'.Keys == m.Keys - {k} && (forall j :: j in m' ==> m'[j] == m[j])
              && a == Value(if k in m then Some(m[k]) else None)
            case DoLen => m' == m && a == Count(|m.Keys|)
            case DoIsEmpty => m' == m && a.Flag? && (a.b <==> m == map[])
            case DoClear => m' == map[] && a == Done
  {
  }

  function PlainRun<K, V>(m: map<K, V>, ops: seq<Op<K, V>>): (map<K, V>, seq<Answer<V>>)
    decreases |ops|
  {
    if ops == [] then (m, [])
    else
      var (m1, a) := Plain(m, ops[0]);
      var (m2, as_) := PlainRun(m1, ops[1..]);
      (m2, [a] + as_)
  }

  lemma UnfoldRun<K, V>(m: map<K, V>, op: Op<K, V>, rest: seq<Op<K, V>>)
    ensures var (m1, a) := Plain(m, op);
            && PlainRun(m, [op] + rest).0 == PlainRun(m1, rest).0
            && PlainRun(m, [op] + rest).1 == [a] + PlainRun(m1, rest).1
  {
    assert ([op] + rest)[1..] == rest;
  }

  /** ic-stable-structures/src/structure/cache/btreemap.rs. */
  class CachedStableBTreeMap<K(==), V(==)> {
    var inner: map<K, V>
    const cache: SyncLruCache<K, V>

    /** Every cached entry is the stored one. */
    ghost predicate Coherent()
      reads this, cache
    {
      forall k :: k in cache.entries ==> k in inner && inner[k] == cache.entries[k]
    }

    constructor (inner: map<K, V>)
      ensures Coherent() && this.inner == inner && fresh(cache)
    {
      this.inner := inner;
      cache := new SyncLruCache();
    }

    method Lookup(k: K) returns (v: Option<V>)
      requires Coherent()
      modifies cache
      ensures Coherent() && v == Get(inner, k)
    {
      v := cache.Lookup(k);
      if v.Some? {
        return;
      }
      v := Get(inner, k);
      if v.Some? {
        cache.Insert(k, v.value);
      }
    }

    method Insert(k: K, v: V) returns (previous: Option<V>)
      requires Coherent()
      modifies this, cache
      ensures Coherent() && (inner, Value(previous)) == Plain(old(inner), DoInsert(k, v))
    {
      cache.Insert(k, v);
      previous := Get(inner, k);
      inner := inner[k := v];
    }

    method Remove(k: K) returns (previous: Option<V>)
      requires Coherent()
      modifies this, cache
      ensures Coherent() && (inner, Value(previous)) == Plain(old(inner), DoRemove(k))
    {
      cache.Remove(k);
      previous := Get(inner, k);
      inner := inner - {k};
    }

    method ContainsKey(k: K) returns (b: bool)
      requires Coherent()
      ensures b <==> k in inner
    {
      b := cache.ContainsKey(k);
      if !b {
        b := k in inner;
      }
    }

    method IsEmpty() returns (b: bool)
      requires Coherent()
      ensures b <==> inner.Keys == {}
    {
      b := cache.IsEmpty();
      if b {
        b := inner.Keys == {};
      } else {
        assert cache.entries.Keys != {};
      }
    }

    method Clear()
      modifies this, cache
      ensures Coherent() && inner == map[]
    {
      cache.Clear();
      inner := map[];
    }

    method Perform(op: Op<K, V>) returns (a: Answer<V>)
      requires Coherent()
      modifies this, cache
      ensures Coherent() && (inner, a) == Plain(old(inner), op)
    {
      match op {
        case DoGet(k) =>
          var v := Lookup(k);
          a := Value(v);
        case DoContains(k) =>
          var b := ContainsKey(k);
          a := Flag(b);
        case DoInsert(k, v) =>
          var p := Insert(k, v);
          a := Value(p);
        case DoRemove(k) =>
          var p := Remove(k);
          a := Value(p);
        case DoLen => a := Count(|inner|);
        case DoIsEmpty =>
          var b := IsEmpty();
          a := Flag(b);
        case DoClear =>
          Clear();
          a := Done;
      }
    }

    /** In every run, for every capacity and every eviction, each answer is the plain map's. */
    method Replay(ops: seq<Op<K, V>>) returns (answers: seq<Answer<V>>)
      requires Coherent()
      modifies this, cache
      ensures Coherent() && (inner, answers) == PlainRun(old(inner), ops)
    {
      answers := [];
      ghost var (end, all) := PlainRun(inner, ops);
      assert ops[0..] == ops;
      for i := 0 to |ops|
        invariant Coherent() && end == PlainRun(inner, ops[i..]).0 && all == answers + PlainRun(inner, ops[i..]).1
      {
        assert ops[i..] == [ops[i]] + ops[i + 1..];
        UnfoldRun(inner, ops[i], ops[i + 1..]);
        var a := Perform(ops[i]);
        answers := answers + [a];
      }
      assert ops[|ops|..] == [];
      assert inner == end && answers == all;
    }
  }
}

/** The stable multimap over lexicographic key pairs and its cached form
    (ic-stable-structures/src/structure/stable_storage/multimap.rs,
    ic-stable-structures/src/structure/cache/multimap.rs).

    First keys are integers; second keys are a `Bounded` type, here the 64-bit numbers. */
module Multimaps {
  import opened Wrappers
  import opened CachedMaps

  const MIN_KEY: nat := 0
  const MAX_KEY: nat := 0xFFFF_FFFF_FFFF_FFFF

  type K1 = int
  type K2 = k: nat | MIN_KEY <= k <= MAX_KEY
  type Key = (K1, K2)

  predicate Less(a: Key, b: Key) {
    a.0 < b.0 || (a.0 == b.0 && a.1 < b.1)
  }

  predicate Within(lo: Key, k: Key, hi: Key) {
    !Less(k, lo) && !Less(hi, k)
  }

  ghost predicate Ascending(ks: seq<Key>) {
    forall i, j :: 0 <= i < j < |ks| ==> Less(ks[i], ks[j])
  }

  /** The first pair has the smallest first key and, under it, the smallest second key; the last pair the largest. */
  lemma FirstAndLast(k: Key, keys: set<Key>)
    ensures IsFirst(k, keys) <==>
            k in keys && forall j :: j in keys ==> k.0 <= j.0 && (k.0 == j.0 ==> k.1 <= j.1)
    ensures IsLast(k, keys) <==>
            k in keys && forall j :: j in keys ==> k.0 >= j.0 && (k.0 == j.0 ==> k.1 >= j.1)
  {
  }

  /** The range used by `remove_partial` and `range` holds exactly the pairs with the given first key. */
  lemma PartialRange(first: K1, k: Key)
    ensures Within((first, MIN_KEY), k, (first, MAX_KEY)) <==> k.0 == first
  {
  }

  /** An ascending listing is determined by what it lists. */
  lemma {:induction false} AscendingUnique(a: seq<Key>, b: seq<Key>)
    requires Ascending(a) && Ascending(b)
    requires forall k :: k in a <==> k in b
    ensures a == b
    decreases |a|
  {
    BothEmpty(a, b);
    if a != [] {
      assert a[0] in b && b != [];
      assert b[0] in a;
      assert a[0] == b[0];
      forall k ensures k in a[1..] <==> k in b[1..] {
        assert k in a <==> k == a[0] || k in a[1..];
        assert k in b <==> k == b[0] || k in b[1..];
      }
      AscendingUnique(a[1..], b[1..]);
    }
  }

  lemma BothEmpty(a: seq<Key>, b: seq<Key>)
    requires forall k :: k in a <==> k in b
    ensures a == [] <==> b == []
  {
    if a != [] {
      assert a[0] in b;
    }
    if b != [] {
      assert b[0] in a;
    }
  }

  predicate IsFirst(k: Key, keys: set<Key>) {
    k in keys && forall j :: j in keys && j != k ==> Less(k, j)
  }

  predicate IsLast(k: Key, keys: set<Key>) {
    k in keys && forall j :: j in keys && j != k ==> Less(j, k)
  }

  /** Smallest and largest key, as a scan finds them. */
  method Extremes(keys: set<Key>) returns (first: Key, last: Key)
    requires keys != {}
    ensures IsFirst(first, keys) && IsLast(last, keys)
  {
    var k :| k in keys;
    first, last := k, k;
    var todo := keys - {k};
    while todo != {}
      invariant todo <= keys && IsFirst(first, keys - todo) && IsLast(last, keys - todo)
      decreases todo
    {
      var j :| j in todo;
      assert keys - (todo - {j}) == (keys - todo) + {j};
      if Less(j, first) {
        first := j;
      }
      if Less(last, j) {
        last := j;
      }
      todo := todo - {j};
    }
    assert keys - todo == keys;
  }

  class StableMultimap<V> {
    var entries: map<Key, V>

    constructor ()
      ensures entries == map[]
    {
      entries := map[];
    }

    method Lookup(first: K1, second: K2) returns (v: Option<V>)
      ensures v == Get(entries, (first, second))
    {
      v := Get(entries, (first, second));
    }

    method Insert(first: K1, second: K2, v: V) returns (previous: Option<V>)
      modifies this
      ensures entries == old(entries)[(first, second) := v] && previous == Get(old(entries), (first, second))
    {
      previous := Get(entries, (first, second));
      entries := entries[(first, second) := v];
    }

    method Remove(first: K1, second: K2) returns (previous: Option<V>)
      modifies this
      ensures entries == old(entries) - {(first, second)} && previous == Get(old(entries), (first, second))
    {
      previous := Get(entries, (first, second));
      entries := entries - {(first, second)};
    }

    /** The keys between two bounds: their one ascending listing. */
    method RangeKeys(lo: Key, hi: Key) returns (keys: seq<Key>)
      ensures Ascending(keys)
      ensures forall k :: k in keys <==> k in entries && Within(lo, k, hi)
      ensures forall ks :: Ascending(ks) && (forall k :: k in ks <==> k in entries && Within(lo, k, hi)) ==> ks == keys
    {
      keys := [];
      var todo := set k | k in entries && Within(lo, k, hi);
      ghost var all := todo;
      while todo != {}
        invariant todo <= all && Ascending(keys)
        invariant forall k :: k in keys <==> k in all - todo
        invariant forall k, j :: k in keys && j in todo ==> Less(k, j)
        decreases todo
      {
        var k, _ := Extremes(todo);
        keys := keys + [k];
        todo := todo - {k};
      }
      forall ks | Ascending(ks) && forall k :: k in ks <==> k in entries && Within(lo, k, hi) ensures ks == keys {
        AscendingUnique(ks, keys);
      }
    }

    /** Removes every pair with that first key and no other; tells whether there was one. */
    method RemovePartial(first: K1) returns (found: bool)
      modifies this
      ensures entries == map k | k in old(entries) && k.0 != first :: old(entries)[k]
      ensures found <==> exists k :: k in old(entries) && k.0 == first
    {
      var keys := RangeKeys((first, MIN_KEY), (first, MAX_KEY));
      found := false;
      for i := 0 to |keys|
        invariant entries == map k | k in old(entries) && k !in keys[..i] :: old(entries)[k]
        invariant found <==> i > 0
      {
        assert keys[..i + 1] == keys[..i] + [keys[i]];
        var k := keys[i];
        assert k !in keys[..i];
        var removed := Get(entries, k);
        entries := entries - {k};
        found := removed.Some? || found;
      }
      assert keys[..|keys|] == keys;
      forall k | k in old(entries) ensures k in keys <==> k.0 == first {
        PartialRange(first, k);
      }
      if found {
        assert keys[0] in old(entries);
      }
    }

    /** The values under one first key, in the order of the second key. */
    method Range(first: K1) returns (items: seq<(K2, V)>)
      ensures forall i, j :: 0 <= i < j < |items| ==> items[i].0 < items[j].0
      ensures forall i :: 0 <= i < |items| ==>
                (first, items[i].0) in entries && items[i].1 == entries[(first, items[i].0)]
      ensures forall k :: k in entries && k.0 == first ==> exists i :: 0 <= i < |items| && items[i].0 == k.1
    {
      var keys := RangeKeys((first, MIN_KEY), (first, MAX_KEY));
      items := [];
      forall k | k in entries ensures k in keys <==> k.0 == first {
        PartialRange(first, k);
      }
      for i := 0 to |keys|
        invariant |items| == i
        invariant forall j :: 0 <= j < i ==> keys[j] == (first, items[j].0) && items[j].1 == entries[keys[j]]
      {
        items := items + [(keys[i].1, entries[keys[i]])];
      }
      forall k | k in entries && k.0 == first ensures exists i :: 0 <= i < |items| && items[i].0 == k.1 {
        var i :| 0 <= i < |keys| && keys[i] == k;
        assert items[i].0 == k.1;
      }
    }

    method PopFirst() returns (x: Option<(Key, V)>)
      modifies this
      ensures x.None? <==> old(entries).Keys == {}
      ensures x.None? ==> entries == old(entries)
      ensures x.Some? ==> IsFirst(x.value.0, old(entries).Keys) && x.value.1 == old(entries)[x.value.0]
                          && entries == old(entries) - {x.value.0}
    {
      if entries.Keys == {} {
        return None;
      }
      var k, _ := Extremes(entries.Keys);
      x := Some((k, entries[k]));
      entries := entries - {k};
    }

    method PopLast() returns (x: Option<(Key, V)>)
      modifies this
      ensures x.None? <==> old(entries).Keys == {}
      ensures x.None? ==> entries == old(entries)
      ensures x.Some? ==> IsLast(x.value.0, old(entries).Keys) && x.value.1 == old(entries)[x.value.0]
                          && entries == old(entries) - {x.value.0}
    {
      if entries.Keys == {} {
        return None;
      }
      var _, k := Extremes(entries.Keys);
      x := Some((k, entries[k]));
      entries := entries - {k};
    }
  }

  /** Every method keeps the cache coherent, whatever it evicts, and has the contract of the uncached
      method on `inner`. */
  class CachedStableMultimap<V> {
    const inner: StableMultimap<V>
    const cache: SyncLruCache<Key, V>

    ghost predicate Coherent()
      reads inner, cache
    {
      forall k :: k in cache.entries ==> k in inner.entries && inner.entries[k] == cache.entries[k]
    }

    constructor (inner: StableMultimap<V>)
      ensures Coherent() && this.inner == inner && fresh(cache)
    {
      this.inner := inner;
      cache := new SyncLruCache();
    }

    method Lookup(first: K1, second: K2) returns (v: Option<V>)
      requires Coherent()
      modifies cache
      ensures Coherent() && v == Get(inner.entries, (first, second))
    {
      v := cache.Lookup((first, second));
      if v.Some? {
        return;
      }
      v := inner.Lookup(first, second);
      if v.Some? {
        cache.Insert((first, second), v.value);
      }
    }

    method Insert(first: K1, second: K2, v: V) returns (previous: Option<V>)
      requires Coherent()
      modifies inner, cache
      ensures Coherent() && previous == Get(old(inner.entries), (first, second))
      ensures inner.entries == old(inner.entries)[(first, second) := v]
    {
      cache.Insert((first, second), v);
      previous := inner.Insert(first, second, v);
    }

    method Remove(first: K1, second: K2) returns (previous: Option<V>)
      requires Coherent()
      modifies inner, cache
      ensures Coherent() && previous == Get(old(inner.entries), (first, second))
      ensures inner.entries == old(inner.entries) - {(first, second)}
    {
      cache.Remove((first, second));
      previous := inner.Remove(first, second);
    }

    method RemovePartial(first: K1) returns (found: bool)
      modifies inner, cache
      ensures Coherent()
      ensures inner.entries == map k | k in old(inner.entries) && k.0 != first :: old(inner.entries)[k]
      ensures found <==> exists k :: k in old(inner.entries) && k.0 == first
    {
      cache.Clear();
      found := inner.RemovePartial(first);
    }

    method PopFirst() returns (x: Option<(Key, V)>)
      requires Coherent()
      modifies inner, cache
      ensures Coherent() && (x.None? <==> old(inner.entries).Keys == {})
      ensures x.None? ==> inner.entries == old(inner.entries)
      ensures x.Some? ==> IsFirst(x.value.0, old(inner.entries).Keys) && x.value.1 == old(inner.entries)[x.value.0]
                          && inner.entries == old(inner.entries) - {x.value.0}
    {
      x := inner.PopFirst();
      if x.Some? {
        cache.Remove(x.value.0);
      }
    }

    method PopLast() returns (x: Option<(Key, V)>)
      requires Coherent()
      modifies inner, cache
      ensures Coherent() && (x.None? <==> old(inner.entries).Keys == {})
      ensures x.None? ==> inner.entries == old(inner.entries)
      ensures x.Some? ==> IsLast(x.value.0, old(inner.entries).Keys) && x.value.1 == old(inner.entries)[x.value.0]
                          && inner.entries == old(inner.entries) - {x.value.0}
    {
      x := inner.PopLast();
      if x.Some? {
        cache.Remove(x.value.0);
      }
    }

    method IsEmpty() returns (b: bool)
      requires Coherent()
      ensures b <==> inner.entries.Keys == {}
    {
      b := cache.IsEmpty();
      if b {
        b := |inner.entries| == 0;
      } else {
        assert cache.entries.Keys != {};
      }
    }

    method Clear()
      modifies inner, cache
      ensures Coherent() && inner.entries == map[]
    {
      cache.Clear();
      inner.entries := map[];
    }
  }
}

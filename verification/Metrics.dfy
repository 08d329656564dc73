/** The bounded metrics history (ic-metrics/src/lib.rs).  Times and intervals are in nanoseconds. */
module Metrics {
  import opened Wrappers
  import opened Arithmetic

  const SECOND: nat := 1_000_000_000

  datatype Interval = PerMinute | PerHour | PerDay | PerWeek | Period(seconds: nat)

  function Nanos(i: Interval): nat {
    match i
    case Period(seconds) => seconds * SECOND
    case PerMinute => 60 * SECOND
    case PerHour => 60 * 60 * SECOND
    case PerDay => 24 * 60 * 60 * SECOND
    case PerWeek => 7 * 24 * 60 * 60 * SECOND
  }

  predicate IsMax(k: nat, keys: set<nat>) {
    k in keys && forall j :: j in keys ==> j <= k
  }

  /** All keys but the smallest are multiples of the interval. */
  ghost predicate Aligned(keys: set<nat>, interval: nat)
    requires interval > 0
  {
    forall j, k :: j in keys && k in keys && j < k ==> k % interval == 0
  }

  /** Every interval is the named number of its predecessors. */
  lemma Intervals(seconds: nat)
    ensures Nanos(Period(seconds)) == seconds * 1_000_000_000
    ensures Nanos(PerMinute) == Nanos(Period(60)) && Nanos(PerHour) == 60 * Nanos(PerMinute)
    ensures Nanos(PerDay) == 24 * Nanos(PerHour) && Nanos(PerWeek) == 7 * Nanos(PerDay)
  {
  }

  /** The snapshots that are not older than the history. */
  function RecentKeys<T>(entries: map<nat, T>, history: nat, now: nat): set<nat> {
    set k | k in entries && k + history >= now
  }

  /** A snapshot less than an interval after the newest of `kept` takes its place; a later one starts the interval
      that `now` is in; without any the key is the time itself. */
  ghost predicate RightKey(kept: set<nat>, now: nat, interval: nat, key: nat)
    requires interval > 0
  {
    && (kept == {} ==> key == now)
    && (forall newest: nat :: IsMax(newest, kept) ==>
          if now < newest + interval then key == newest else key % interval == 0 && key <= now < key + interval)
  }

  // ---------------------------------------------------------------- counting

  /** Multiples of the interval above `lo`: each needs an interval of its own below the largest. */
  lemma {:induction false} MultiplesCount(keys: set<nat>, interval: nat, lo: nat, newest: nat)
    requires interval > 0 && IsMax(newest, keys)
    requires forall k :: k in keys ==> k % interval == 0 && lo < k
    ensures (|keys| - 1) * interval <= newest - lo
    decreases |keys|
  {
    var rest := keys - {newest};
    assert keys == rest + {newest};
    if rest != {} {
      var second := Largest(rest);
      MultiplesApart(second, newest, interval);
      MultiplesCount(rest, interval, lo, second);
      assert (|keys| - 1) * interval == (|rest| - 1) * interval + interval;
    }
  }

  lemma {:induction false} Largest(keys: set<nat>) returns (k: nat)
    requires keys != {}
    ensures IsMax(k, keys)
    decreases |keys|
  {
    k :| k in keys;
    var rest := keys - {k};
    assert forall j :: j in keys ==> j == k || j in rest;
    if rest != {} {
      var other := Largest(rest);
      k := if other > k then other else k;
    }
  }

  // ---------------------------------------------------------------- the map

  class MetricsMap<T> {
    const interval: Interval
    const historyLength: nat
    var entries: map<nat, T>

    /** Keys are in the past, and aligned but for the smallest. */
    ghost predicate Valid(now: nat)
      reads this
    {
      && Nanos(interval) > 0
      && (forall k :: k in entries ==> k <= now)
      && Aligned(entries.Keys, Nanos(interval))
    }

    constructor (interval: Interval, historyLength: nat)
      requires Nanos(interval) > 0
      ensures this.interval == interval && this.historyLength == historyLength && entries == map[]
      ensures forall now: nat :: Valid(now)
    {
      this.interval, this.historyLength, entries := interval, historyLength, map[];
    }

    method Trim(now: nat)
      modifies this
      ensures entries == map k | k in old(entries) && k + historyLength >= now :: old(entries)[k]
    {
      var oldest := if now < historyLength then 0 else now - historyLength;
      entries := map k | k in entries && k >= oldest :: entries[k];
    }

    method Newest(now: nat) returns (last: nat)
      ensures if entries.Keys == {} then last == now else IsMax(last, entries.Keys)
    {
      var todo := entries.Keys;
      last := now;
      while todo != {}
        invariant todo <= entries.Keys
        invariant if todo == entries.Keys then last == now else IsMax(last, entries.Keys - todo)
        decreases todo
      {
        var k :| k in todo;
        if todo == entries.Keys || k > last {
          last := k;
        }
        assert entries.Keys - (todo - {k}) == (entries.Keys - todo) + {k};
        todo := todo - {k};
      }
      assert entries.Keys - todo == entries.Keys;
    }

    /** With time not running backwards, only the newest snapshot can be overwritten, within one interval
        of it; everything else in the window stays, and the history stays bounded. */
    method Insert(metric: T, now: nat) returns (replaced: Option<T>, ghost key: nat)
      requires Valid(now)
      modifies this
      ensures forall later: nat :: later >= now ==> Valid(later)
      ensures |entries| <= historyLength / Nanos(interval) + 2
      ensures IsMax(key, entries.Keys) && key <= now < key + Nanos(interval)
      ensures entries == (map k | k in old(entries) && k + historyLength >= now :: old(entries)[k])[key := metric]
      ensures RightKey(RecentKeys(old(entries), historyLength, now), now, Nanos(interval), key)
      ensures replaced == if key in old(entries) && key + historyLength >= now then Some(old(entries)[key]) else None
    {
      Trim(now);
      assert entries.Keys == RecentKeys(old(entries), historyLength, now);
      var last := Newest(now);
      var i := Nanos(interval);
      var at := if now >= last + i then now - now % i else last;
      KeyInserted(entries.Keys, last, now, historyLength, i);
      assert entries[at := metric].Keys == entries.Keys + {at};
      replaced := if at in entries then Some(entries[at]) else None;
      entries := entries[at := metric];
      key := at;
    }
  }

  /** The key of a new snapshot is the newest, less than an interval old, and keeps the keys aligned and
      few. */
  lemma KeyInserted(kept: set<nat>, last: nat, now: nat, history: nat, i: nat)
    requires i > 0 && Aligned(kept, i) && forall k :: k in kept ==> k <= now && k + history >= now
    requires if kept == {} then last == now else IsMax(last, kept)
    ensures var at := if now >= last + i then now - now % i else last;
            && at <= now < at + i
            && IsMax(at, kept + {at}) && Aligned(kept + {at}, i)
            && |kept + {at}| <= history / i + 2
            && RightKey(kept, now, i, at)
  {
    RoundDown(now, i);
    var at := if now >= last + i then now - now % i else last;
    AlignedAfter(kept, at, i);
    HistoryBound(kept + {at}, at, now, history, i);
  }

  lemma RoundDown(now: nat, i: nat)
    requires i > 0
    ensures (now - now % i) % i == 0 && now - now % i <= now < now - now % i + i
  {
    var q := now / i;
    assert now - now % i == q * i + 0;
    DivModUnique(now - now % i, q, i, 0);
  }

  lemma AlignedAfter(keys: set<nat>, key: nat, i: nat)
    requires i > 0 && Aligned(keys, i) && (forall k :: k in keys ==> k <= key)
    requires key in keys || keys == {} || key % i == 0
    ensures Aligned(keys + {key}, i)
  {
  }

  /** One unaligned smallest key and the multiples above it. */
  lemma HistoryBound(keys: set<nat>, newest: nat, now: nat, history: nat, i: nat)
    requires i > 0 && Aligned(keys, i) && IsMax(newest, keys) && newest <= now
    requires forall k :: k in keys ==> k + history >= now || k == newest
    ensures |keys| <= history / i + 2
  {
    var smallest := Smallest(keys);
    var rest := keys - {smallest};
    assert keys == rest + {smallest};
    if rest != {} {
      MultiplesCount(rest, i, smallest, newest);
      DivAtLeast(history, |rest| - 1, i);
    }
  }

  lemma {:induction false} Smallest(keys: set<nat>) returns (k: nat)
    requires keys != {}
    ensures k in keys && forall j :: j in keys ==> k <= j
    decreases |keys|
  {
    k :| k in keys;
    var rest := keys - {k};
    assert forall j :: j in keys ==> j == k || j in rest;
    if rest != {} {
      var other := Smallest(rest);
      k := if other < k then other else k;
    }
  }
}

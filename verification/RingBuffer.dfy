/** The wrap-around ring buffer over a stable vector
    (ic-stable-structures/src/structure/common/ring_buffer.rs) refines a bounded deque. */
module RingBuffers {
  import opened Arithmetic
  import opened Wrappers

  // ---------------------------------------------------------------- the simple form

  datatype Deque<T> = Deque(items: seq<T>, capacity: nat)

  /** The last `n` elements, or all of them. */
  function LastN<T>(s: seq<T>, n: nat): seq<T> {
    if |s| <= n then s else s[|s| - n..]
  }

  function FirstN<T>(s: seq<T>, n: nat): (r: seq<T>)
    ensures |r| == (if |s| <= n then |s| else n) && r <= s
  {
    if |s| <= n then s else s[..n]
  }

  datatype Op<T> = Push(x: T) | Pop | Truncate(n: nat) | Clear | Resize(capacity: nat)

  predicate Legal<T>(op: Op<T>) {
    op.Resize? ==> op.capacity > 0
  }

  /** One operation on the deque and the element it hands out. */
  function Step<T>(d: Deque<T>, op: Op<T>): (Deque<T>, Option<T>) {
    match op
    case Push(x) =>
      (d.(items := LastN(d.items + [x], d.capacity)),
       if |d.items| >= d.capacity && d.items != [] then Some(d.items[0]) else None)
    case Pop =>
      if d.items == [] then (d, None)
      else (d.(items := d.items[..|d.items| - 1]), Some(d.items[|d.items| - 1]))
    case Truncate(n) => (d.(items := FirstN(d.items, if n >= |d.items| then 0 else |d.items| - n)), None)
    case Clear => (d.(items := []), None)
    case Resize(c) => (Deque(LastN(d.items, c), c), None)
  }

  /** What each operation does to the sequence of elements, old to new: a push appends and, in a full buffer, evicts
      and hands out the oldest; a pop takes the newest; truncation drops the `n` newest, and resizing the oldest
      that do not fit. */
  lemma StepSpec<T>(d: Deque<T>, op: Op<T>)
    requires 0 < d.capacity && |d.items| <= d.capacity && Legal(op)
    ensures var (d', out) := Step(d, op);
            && |d'.items| <= d'.capacity && (d'.capacity == if op.Resize? then op.capacity else d.capacity)
            && match op
               case Push(x) =>
                 if out.Some? then |d.items| == d.capacity && [out.value] + d'.items == d.items + [x]
                 else |d.items| < d.capacity && d'.items == d.items + [x]
               case Pop => if out.Some? then d'.items + [out.value] == d.items else d'.items == [] == d.items
               case Truncate(n) =>
                 d'.items <= d.items && |d.items| - |d'.items| == (if n <= |d.items| then n else |d.items|)
               case Clear => d'.items == []
               case Resize(c) =>
                 && (|d'.items| == if |d.items| <= c then |d.items| else c)
                 && d.items == d.items[..|d.items| - |d'.items|] + d'.items
  {
    match op {
      case Push(x) =>
        var all := d.items + [x];
        if |d.items| == d.capacity {
          assert all == [d.items[0]] + all[1..];
        }
      case Pop =>
        if d.items != [] {
          assert d.items[..|d.items| - 1] + [d.items[|d.items| - 1]] == d.items;
        }
      case Resize(c) => assert d.items == d.items[..|d.items| - |LastN(d.items, c)|] + LastN(d.items, c);
      case _ =>
    }
  }

  function Run<T>(d: Deque<T>, ops: seq<Op<T>>): (Deque<T>, seq<Option<T>>)
    decreases |ops|
  {
    if ops == [] then (d, [])
    else
      var (d1, r) := Step(d, ops[0]);
      var (d2, rs) := Run(d1, ops[1..]);
      (d2, [r] + rs)
  }

  function Pushes<T>(xs: seq<T>): (ops: seq<Op<T>>)
    ensures |ops| == |xs| && forall i :: 0 <= i < |xs| ==> ops[i] == Push(xs[i])
  {
    if xs == [] then [] else [Push(xs[0])] + Pushes(xs[1..])
  }

  /** Any number of pushes keeps exactly the most recent `capacity` elements of the whole history. */
  lemma {:induction false} PushesKeepLast<T>(d: Deque<T>, xs: seq<T>)
    requires d.capacity > 0 && |d.items| <= d.capacity
    ensures Run(d, Pushes(xs)).0 == d.(items := LastN(d.items + xs, d.capacity))
    decreases |xs|
  {
    if xs == [] {
      assert d.items + xs == d.items;
    } else {
      var d1 := Step(d, Push(xs[0])).0;
      PushesKeepLast(d1, xs[1..]);
      UnfoldRun(d, Push(xs[0]), Pushes(xs[1..]));
      PushedOn(d.items, xs, d.capacity);
    }
  }

  lemma PushedOn<T>(items: seq<T>, xs: seq<T>, n: nat)
    requires xs != []
    ensures LastN(LastN(items + [xs[0]], n) + xs[1..], n) == LastN(items + xs, n)
  {
    LastOfLast(items + [xs[0]], xs[1..], n);
    assert items + [xs[0]] + xs[1..] == items + xs;
  }

  lemma UnfoldRun<T>(d: Deque<T>, op: Op<T>, rest: seq<Op<T>>)
    ensures var (d1, r) := Step(d, op);
            && Run(d, [op] + rest).0 == Run(d1, rest).0
            && Run(d, [op] + rest).1 == [r] + Run(d1, rest).1
  {
    assert ([op] + rest)[1..] == rest;
  }

  lemma LastOfLast<T>(s: seq<T>, t: seq<T>, n: nat)
    ensures LastN(LastN(s, n) + t, n) == LastN(s + t, n)
  {
  }

  // ---------------------------------------------------------------- the code

  lemma Wrap(start: nat, offset: nat, capacity: nat)
    requires start < capacity && offset <= capacity
    ensures (start + offset) % capacity ==
            if start + offset < capacity then start + offset else start + offset - capacity
  {
    if start + offset < capacity {
      DivModUnique(start + offset, 0, capacity, start + offset);
    } else {
      DivModUnique(start + offset, 1, capacity, start + offset - capacity);
    }
  }

  /** The vector is full, or nothing has wrapped yet; so every stored index is inside the vector. */
  ghost predicate WellFormed<T>(data: seq<T>, start: nat, len: nat, capacity: nat) {
    && start < capacity && len <= capacity && |data| <= capacity
    && (|data| == capacity || (start == 0 && len <= |data|))
  }

  /** The elements from the oldest to the newest. */
  ghost function Unroll<T>(data: seq<T>, start: nat, len: nat, capacity: nat): (s: seq<T>)
    requires WellFormed(data, start, len, capacity)
    ensures |s| == len
    ensures forall i :: 0 <= i < len ==> s[i] == data[if start + i < capacity then start + i else start + i - capacity]
  {
    seq(len, i requires 0 <= i < len => data[if start + i < capacity then start + i else start + i - capacity])
  }

  /** Overwriting the slot of the oldest element drops it and appends the new one. */
  lemma Overwrites<T>(data: seq<T>, start: nat, capacity: nat, x: T)
    requires |data| == capacity && start < capacity
    ensures var start' := if start + 1 < capacity then start + 1 else 0;
            Unroll(data[start := x], start', capacity, capacity) ==
            LastN(Unroll(data, start, capacity, capacity) + [x], capacity)
  {
  }

  lemma Refilled<T>(items: seq<T>, capacity: nat)
    requires |items| <= capacity && capacity > 0
    ensures WellFormed(items, 0, |items|, capacity) && Unroll(items, 0, |items|, capacity) == items
  {
  }

  /** Writing the slot behind the newest element appends to a buffer that is not full. */
  lemma Appends<T>(data: seq<T>, start: nat, len: nat, capacity: nat, x: T)
    requires WellFormed(data, start, len, capacity) && len < capacity
    ensures var at := if start + len < capacity then start + len else start + len - capacity;
            && at <= |data|
            && var data' := if at == |data| then data + [x] else data[at := x];
               WellFormed(data', start, len + 1, capacity)
               && Unroll(data', start, len + 1, capacity) == Unroll(data, start, len, capacity) + [x]
  {
  }

  /** Either way the new contents are the last `capacity` elements of the old ones and `x`, and the slot
      written in a full buffer held the oldest one. */
  lemma Pushed<T>(data: seq<T>, start: nat, len: nat, capacity: nat, x: T)
    requires WellFormed(data, start, len, capacity)
    ensures var at := (start + len) % capacity;
            && at <= |data|
            && var data' := if at == |data| then data + [x] else data[at := x];
               var start' := if len == capacity then (start + 1) % capacity else start;
               var len' := if len == capacity then len else len + 1;
               && WellFormed(data', start', len', capacity)
               && Unroll(data', start', len', capacity) == LastN(Unroll(data, start, len, capacity) + [x], capacity)
               && (len == capacity ==> at < |data| && data[at] == Unroll(data, start, len, capacity)[0])
  {
    Wrap(start, len, capacity);
    Wrap(start, 1, capacity);
    if len == capacity {
      Overwrites(data, start, capacity, x);
    } else {
      Appends(data, start, len, capacity, x);
    }
  }

  class StableRingBuffer<T> {
    var data: seq<T>
    var start: nat
    var len: nat
    var capacity: nat

    ghost predicate Valid()
      reads this
    {
      WellFormed(data, start, len, capacity)
    }

    ghost function Contents(): (s: seq<T>)
      requires Valid()
      reads this
    {
      Unroll(data, start, len, capacity)
    }

    function OffsetToIndex(offset: nat): nat
      requires capacity > 0
      reads this
    {
      (start + offset) % capacity
    }

    ghost function View(): Deque<T>
      requires Valid()
      reads this
    {
      Deque(Contents(), capacity)
    }

    constructor (historySize: nat)
      requires historySize > 0
      ensures Valid() && View() == Deque([], historySize)
    {
      data, start, len, capacity := [], 0, 0, historySize;
    }

    method DoClear()
      requires Valid()
      modifies this
      ensures Valid() && View() == Step(old(View()), Clear).0
    {
      start, len, data := 0, 0, [];
    }

    /** Every index read is inside the vector: none of the source's `expect`s can fail. */
    method NthElement(n: nat) returns (x: Option<T>)
      requires Valid()
      ensures x == if n < len then Some(Contents()[n]) else None
    {
      if n >= len {
        return None;
      }
      Wrap(start, n, capacity);
      x := Some(data[OffsetToIndex(n)]);
    }

    method NthElementFromEnd(n: nat) returns (x: Option<T>)
      requires Valid()
      ensures x == if n < len then Some(Contents()[len - 1 - n]) else None
    {
      if len < n + 1 {
        return None;
      }
      x := NthElement(len - (n + 1));
    }

    method DoPush(x: T) returns (replaced: Option<T>)
      requires Valid()
      modifies this
      ensures Valid() && (View(), replaced) == Step(old(View()), Push(x))
    {
      Pushed(data, start, len, capacity, x);
      var newIndex := OffsetToIndex(len);
      if len == capacity {
        start := OffsetToIndex(1);
        replaced := Some(data[newIndex]);
      } else {
        len := len + 1;
        replaced := None;
      }
      if newIndex == |data| {
        data := data + [x];
      } else {
        data := data[newIndex := x];
      }
    }

    method DoPop() returns (x: Option<T>)
      requires Valid()
      modifies this
      ensures Valid() && (View(), x) == Step(old(View()), Pop)
    {
      ghost var before := Contents();
      if len == 0 {
        return None;
      }
      len := len - 1;
      Wrap(start, len, capacity);
      x := Some(data[OffsetToIndex(len)]);
      assert x.value == before[len];
      assert Contents() == before[..len];
    }

    method DoTruncate(n: nat)
      requires Valid()
      modifies this
      ensures Valid() && View() == Step(old(View()), Truncate(n)).0
    {
      ghost var before := Contents();
      len := if n >= len then 0 else len - n;
      assert Contents() == before[..len];
    }

    method DoResize(newCapacity: nat)
      requires Valid() && newCapacity > 0
      modifies this
      ensures Valid() && View() == Step(old(View()), Resize(newCapacity)).0
    {
      if newCapacity == capacity {
        return;
      }
      ghost var items := Contents();
      var n := len;
      var count := if n < newCapacity then n else newCapacity;
      var elements := [];
      var offset := count;
      while offset > 0
        invariant 0 <= offset <= count && |elements| == count - offset
        invariant forall j :: 0 <= j < |elements| ==> elements[j] == items[n - count + j]
        modifies {}
      {
        offset := offset - 1;
        var x := NthElementFromEnd(offset);
        elements := elements + [x.value];
      }
      assert elements == LastN(items, newCapacity);
      Refilled(elements, newCapacity);
      data, start, len, capacity := elements, 0, count, newCapacity;
    }

    method Perform(op: Op<T>) returns (x: Option<T>)
      requires Valid() && Legal(op)
      modifies this
      ensures Valid() && (View(), x) == Step(old(View()), op)
    {
      x := None;
      match op {
        case Push(v) => x := DoPush(v);
        case Pop => x := DoPop();
        case Truncate(n) => DoTruncate(n);
        case Clear => DoClear();
        case Resize(c) => DoResize(c);
      }
    }

    /** Whatever the history of operations, the buffer holds and returns what the deque does. */
    method Replay(ops: seq<Op<T>>) returns (results: seq<Option<T>>)
      requires Valid() && forall op :: op in ops ==> Legal(op)
      modifies this
      ensures Valid() && (View(), results) == Run(old(View()), ops)
    {
      results := [];
      ghost var (end, all) := Run(View(), ops);
      assert ops[0..] == ops;
      for i := 0 to |ops|
        invariant Valid() && end == Run(View(), ops[i..]).0 && all == results + Run(View(), ops[i..]).1
      {
        assert ops[i..] == [ops[i]] + ops[i + 1..];
        UnfoldRun(View(), ops[i], ops[i + 1..]);
        var r := Perform(ops[i]);
        results := results + [r];
      }
      assert ops[|ops|..] == [];
      assert View() == end && results == all;
    }
  }
}

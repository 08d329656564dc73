/** Log paging by absolute offset over a bounded in-memory buffer (ic-log/src/writer.rs). */
module LogWriter {
  import opened Wrappers
  import opened RingBuffers
  import opened Arithmetic

  type Text = seq<nat>

  datatype Log = Log(log: Text, offset: nat)

  datatype Logs = Logs(logs: seq<Log>, allLogsCount: nat)

  function Min(a: nat, b: nat): nat {
    if a < b then a else b
  }

  // ---------------------------------------------------------------- the reference

  /** Records `lo..hi` of the full history, each with its absolute offset. */
  function Entries(history: seq<Text>, lo: nat, hi: nat): (r: seq<Log>)
    requires lo <= hi <= |history|
    ensures |r| == hi - lo && forall i :: 0 <= i < |r| ==> r[i] == Log(history[lo + i], lo + i)
    decreases hi - lo
  {
    if lo == hi then [] else [Log(history[lo], lo)] + Entries(history, lo + 1, hi)
  }

  /** What a page should hold when the last `len` records are retained: the retained records from the
      first offset not below `from`, at most `max` of them. */
  function Page(history: seq<Text>, len: nat, max: nat, from: nat): seq<Log>
    requires len <= |history|
  {
    if from >= |history| then []
    else
      var lo := if from < |history| - len then |history| - len else from;
      Entries(history, lo, Min(lo + max, |history|))
  }

  // ---------------------------------------------------------------- the code

  /** Index of the first record to return; `None` where the subtraction on `usize` underflows. */
  function StartIndex(count: nat, len: nat, capacity: nat, from: nat): Option<nat>
    requires capacity > 0
  {
    if from + len < count then Some(0)
    else if count > len then
      if from < count % capacity then None else Some((from - count % capacity) % capacity)
    else Some(from % capacity)
  }

  /** At most `max` records of the buffer from index `first`, numbered upwards from `offset`. */
  function Numbered(buffer: seq<Text>, first: nat, offset: nat, max: nat): (r: seq<Log>)
    ensures |r| == if first >= |buffer| then 0 else Min(max, |buffer| - first)
    ensures forall i :: 0 <= i < |r| ==> r[i] == Log(buffer[first + i], offset + i)
    decreases max
  {
    if first >= |buffer| || max == 0 then []
    else [Log(buffer[first], offset)] + Numbered(buffer, first + 1, offset + 1, max - 1)
  }

  function Taken(count: nat, buffer: seq<Text>, capacity: nat, max: nat, from: nat): Option<seq<Log>>
    requires capacity > 0 && |buffer| <= count
  {
    if from >= count then Some([])
    else match StartIndex(count, |buffer|, capacity, from)
      case None => None
      case Some(first) => Some(Numbered(buffer, first, count + first - |buffer|, max))
  }

  // ---------------------------------------------------------------- when they agree

  /** After eviction, the modular start index is the distance from the oldest retained record. */
  lemma StartAfterEviction(count: nat, capacity: nat, from: nat)
    requires 0 < capacity < count && count - capacity <= from < count
    ensures StartIndex(count, capacity, capacity, from) == Some(from - (count - capacity))
  {
    var q, r := count / capacity, count % capacity;
    assert count == q * capacity + r && q >= 1;
    assert (q - 1) * capacity == q * capacity - capacity >= 0;
    DivModUnique(from - r, q - 1, capacity, from - (count - capacity));
  }

  lemma BeforeEviction(count: nat, capacity: nat, from: nat)
    requires from < count <= capacity
    ensures StartIndex(count, count, capacity, from) == Some(from)
  {
    DivModUnique(from, 0, capacity, from);
  }

  predicate Retains(history: seq<Text>, buffer: seq<Text>) {
    |buffer| <= |history| && buffer == history[|history| - |buffer|..]
  }

  /** The start index is the distance of the first wanted record from the oldest retained one. */
  lemma StartAgrees(count: nat, len: nat, capacity: nat, from: nat)
    requires capacity > 0 && from < count && (len == 0 || len == Min(count, capacity))
    ensures StartIndex(count, len, capacity, from) ==
            Some(if from < count - len then 0 else from - (count - len))
  {
    if from + len >= count {
      if count > len {
        StartAfterEviction(count, capacity, from);
      } else {
        BeforeEviction(count, capacity, from);
      }
    }
  }

  lemma NumberedIsPage(history: seq<Text>, buffer: seq<Text>, lo: nat, max: nat)
    requires Retains(history, buffer) && |history| - |buffer| <= lo <= |history|
    ensures Numbered(buffer, lo - (|history| - |buffer|), lo, max) == Entries(history, lo, Min(lo + max, |history|))
  {
  }

  lemma PageAgrees(history: seq<Text>, buffer: seq<Text>, capacity: nat, max: nat, from: nat)
    requires capacity > 0 && Retains(history, buffer)
    requires |buffer| == 0 || |buffer| == Min(|history|, capacity)
    ensures Taken(|history|, buffer, capacity, max, from) == Some(Page(history, |buffer|, max, from))
  {
    if from < |history| {
      StartAgrees(|history|, |buffer|, capacity, from);
      NumberedIsPage(history, buffer, if from < |history| - |buffer| then |history| - |buffer| else from, max);
    }
  }

  /** A buffer holding fewer records than both its capacity and the count misplaces the newest one. */
  lemma PageFails(history: seq<Text>, buffer: seq<Text>, capacity: nat)
    requires Retains(history, buffer) && 0 < |buffer| < Min(|history|, capacity)
    ensures Taken(|history|, buffer, capacity, 1, |history| - 1) != Some(Page(history, |buffer|, 1, |history| - 1))
  {
    var n := |history|;
    assert |Page(history, |buffer|, 1, n - 1)| == 1;
    if n < capacity {
      DivModUnique(n, 0, capacity, n);
    } else {
      StartOfNewest(n, |buffer|, capacity);
    }
  }

  lemma StartOfNewest(count: nat, len: nat, capacity: nat)
    requires 0 < len < capacity <= count
    ensures StartIndex(count, len, capacity, count - 1) == Some(capacity - 1)
  {
    var q, r := count / capacity, count % capacity;
    assert count == q * capacity + r && q >= 1;
    assert (q - 1) * capacity == q * capacity - capacity >= 0;
    DivModUnique(count - 1 - r, q - 1, capacity, capacity - 1);
  }

  /** Paging agrees with the full history for all pages exactly when the buffer is empty or holds as
      many records as it should. */
  lemma PagingCorrectIff(history: seq<Text>, buffer: seq<Text>, capacity: nat)
    requires capacity > 0 && Retains(history, buffer) && |buffer| <= capacity
    ensures (forall max: nat, from: nat ::
               Taken(|history|, buffer, capacity, max, from) == Some(Page(history, |buffer|, max, from)))
            <==> |buffer| == 0 || |buffer| == Min(|history|, capacity)
  {
    if |buffer| == 0 || |buffer| == Min(|history|, capacity) {
      forall max: nat, from: nat
        ensures Taken(|history|, buffer, capacity, max, from) == Some(Page(history, |buffer|, max, from))
      {
        PageAgrees(history, buffer, capacity, max, from);
      }
    } else {
      PageFails(history, buffer, capacity);
    }
  }

  // ---------------------------------------------------------------- the object

  /** The thread-local log store.  `lossy` is the lossy UTF-8 decoding of a printed record; `history` is
      every record ever stored since `init_buffer`. */
  class InMemoryWriter {
    var count: nat
    var buffer: seq<Text>
    var capacity: nat
    var enabled: bool
    var maxRecordLength: nat
    const lossy: seq<byte> -> Text
    ghost var history: seq<Text>

    ghost predicate Valid()
      reads this
    {
      capacity > 0 && |buffer| <= capacity && |buffer| <= count == |history|
    }

    /** The buffer holds all it can of what was ever printed. */
    ghost predicate Healthy()
      reads this
    {
      Valid() && Retains(history, buffer) && |buffer| == Min(count, capacity)
    }

    constructor (initialCapacity: nat, maxLength: nat, lossy: seq<byte> -> Text)
      ensures Healthy() && history == [] && enabled == (initialCapacity > 0)
    {
      count, buffer, history, maxRecordLength := 0, [], [], maxLength;
      this.lossy := lossy;
      capacity := if initialCapacity > 0 then initialCapacity else 1;
      enabled := initialCapacity > 0;
    }

    method InitBuffer(newCapacity: nat, maxLength: nat)
      modifies this
      ensures Healthy() && history == [] && enabled == (newCapacity > 0)
      ensures maxRecordLength == maxLength && capacity == if newCapacity > 0 then newCapacity else 1
    {
      maxRecordLength, count, buffer, history := maxLength, 0, [], [];
      if newCapacity > 0 {
        capacity, enabled := newCapacity, true;
      } else {
        capacity, enabled := 1, false;
      }
    }

    /** Healthy buffers stay healthy; the record is cut to the maximal length in bytes and then decoded. */
    method Print(record: seq<byte>)
      requires Valid()
      modifies this
      ensures Valid() && capacity == old(capacity) && enabled == old(enabled) && maxRecordLength == old(maxRecordLength)
      ensures history == if enabled then old(history) + [lossy(FirstN(record, maxRecordLength))] else old(history)
      ensures old(Healthy()) ==> Healthy()
      ensures enabled ==> buffer == LastN(old(buffer) + [lossy(FirstN(record, maxRecordLength))], capacity)
      ensures !enabled ==> buffer == old(buffer)
    {
      if !enabled {
        return;
      }
      var text := lossy(FirstN(record, maxRecordLength));
      count := count + 1;
      buffer := LastN(buffer + [text], capacity);
      history := history + [text];
    }

    /** `panicked` where the offset computation underflows. */
    method TakeRecords(max: nat, from: nat) returns (r: Logs, panicked: bool)
      requires Valid()
      ensures !enabled ==> r == Logs([], 0) && !panicked
      ensures enabled ==> (panicked <==> Taken(count, buffer, capacity, max, from).None?)
      ensures enabled && !panicked ==> r == Logs(Taken(count, buffer, capacity, max, from).value, count)
      ensures enabled && Healthy() ==> !panicked && r == Logs(Page(history, |buffer|, max, from), count)
    {
      panicked := false;
      if !enabled {
        return Logs([], 0), false;
      }
      PageAgreesIfHealthy(max, from);
      if from >= count || count == 0 {
        return Logs([], count), false;
      }
      var fromOffset := 0;
      if from + |buffer| < count {
        fromOffset := 0;
      } else if count > |buffer| {
        if from < count % capacity {
          return Logs([], count), true;
        }
        fromOffset := from - count % capacity;
      } else {
        fromOffset := from;
      }
      var first := fromOffset % capacity;
      assert StartIndex(count, |buffer|, capacity, from) == Some(first);
      var result := ReadFrom(first, count + first - |buffer|, max);
      r := Logs(result, count);
    }

    method ReadFrom(first: nat, offset: nat, max: nat) returns (result: seq<Log>)
      ensures result == Numbered(buffer, first, offset, max)
    {
      result := [];
      var n, i := offset, first;
      while i < |buffer| && |result| < max
        invariant first <= i && |result| == i - first <= max && n == offset + |result| && (i == first || i <= |buffer|)
        invariant forall j :: 0 <= j < |result| ==> result[j] == Log(buffer[first + j], offset + j)
      {
        result := result + [Log(buffer[i], n)];
        n, i := n + 1, i + 1;
      }
    }

    lemma PageAgreesIfHealthy(max: nat, from: nat)
      requires Valid()
      ensures Healthy() ==> Taken(count, buffer, capacity, max, from) == Some(Page(history, |buffer|, max, from))
    {
      if Healthy() {
        PageAgrees(history, buffer, capacity, max, from);
      }
    }

    method Texts(logs: seq<Log>) returns (texts: seq<Text>)
      ensures texts == TextsOf(logs)
    {
      texts := [];
      for i := 0 to |logs|
        invariant |texts| == i && forall j :: 0 <= j < i ==> texts[j] == logs[j].log
      {
        texts := texts + [logs[i].log];
      }
    }

    /** What a capacity change of an enabled writer copies, if the copy does not underflow. */
    ghost function Copied(newCapacity: nat): Option<seq<Text>>
      requires Valid()
      reads this
    {
      match Taken(count, buffer, capacity, newCapacity, if count < newCapacity then 0 else count - newCapacity)
      case None => None
      case Some(logs) => Some(TextsOf(logs))
    }

    method Copy(newCapacity: nat) returns (kept: seq<Text>, panicked: bool)
      requires Valid()
      ensures !enabled ==> kept == [] && !panicked
      ensures enabled ==> (panicked <==> Copied(newCapacity).None?) && (!panicked ==> Some(kept) == Copied(newCapacity))
      ensures enabled && Healthy() ==> !panicked && kept == LastN(buffer, newCapacity)
    {
      var from := if count < newCapacity then 0 else count - newCapacity;
      CopiedIfHealthy(newCapacity);
      var taken, p := TakeRecords(newCapacity, from);
      kept := Texts(taken.logs);
      panicked := p;
    }

    lemma CopiedIfHealthy(newCapacity: nat)
      requires Valid()
      ensures Healthy() ==> Copied(newCapacity) == Some(LastN(buffer, newCapacity))
    {
      if Healthy() {
        PageAgreesIfHealthy(newCapacity, if count < newCapacity then 0 else count - newCapacity);
        NewestPage(history, buffer, newCapacity);
      }
    }

    /** From a healthy, enabled writer a new non-zero capacity keeps the newest records it can, and the
        writer stays healthy exactly when it shrinks or nothing has been evicted yet.  From any other
        state it keeps what paging finds, or panics and changes nothing. */
    method ChangeCapacity(newCapacity: nat) returns (panicked: bool)
      requires Valid()
      modifies this
      ensures Valid() && history == old(history) && count == old(count) && maxRecordLength == old(maxRecordLength)
      ensures panicked <==> newCapacity > 0 && old(enabled) && old(Copied(newCapacity)).None?
      ensures panicked ==> buffer == old(buffer) && capacity == old(capacity) && enabled == old(enabled)
      ensures !panicked ==> enabled == (newCapacity > 0) && capacity == if newCapacity > 0 then newCapacity else 1
      ensures !panicked ==> buffer == if newCapacity > 0 && old(enabled) then old(Copied(newCapacity)).value else []
      ensures old(Healthy()) && newCapacity > 0 && old(enabled) ==>
                && buffer == LastN(old(buffer), newCapacity)
                && (Healthy() <==> newCapacity <= old(capacity) || count <= old(capacity))
      ensures newCapacity == 0 || !old(enabled) ==> (Healthy() <==> count == 0)
    {
      if Healthy() {
        TailRetained(history, buffer, newCapacity);
      }
      var kept := [];
      panicked := false;
      if newCapacity > 0 {
        kept, panicked := Copy(newCapacity);
        if panicked {
          return;
        }
      }
      buffer, enabled, capacity := kept, newCapacity > 0, if newCapacity > 0 then newCapacity else 1;
    }
  }

  function TextsOf(logs: seq<Log>): seq<Text> {
    seq(|logs|, i requires 0 <= i < |logs| => logs[i].log)
  }

  lemma TailRetained(history: seq<Text>, buffer: seq<Text>, n: nat)
    requires Retains(history, buffer)
    ensures Retains(history, LastN(buffer, n)) && |LastN(buffer, n)| == Min(|buffer|, n)
  {
  }

  /** The page of the newest `capacity` records is the tail of the buffer. */
  lemma NewestPage(history: seq<Text>, buffer: seq<Text>, capacity: nat)
    requires Retains(history, buffer)
    ensures var page := Page(history, |buffer|, capacity, if |history| < capacity then 0 else |history| - capacity);
            var kept := LastN(buffer, capacity);
            TextsOf(page) == kept
  {
  }
}

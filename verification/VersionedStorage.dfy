/** Versioned values in stable memory (ic-storage/src/stable.rs).

    A `Family` is a chain of types: type 0 is the unit type, type i is upgraded from type i - 1.  The
    serialisation is a parameter; what is assumed of it is `RoundTrips`. */
module VersionedStorage {
  import opened Arithmetic
  import opened Wrappers
  import opened StableStorage

  const VERSION_SIZE: nat := 4

  datatype Family<!V> = Family(
    versions: seq<nat>,
    encode: (nat, V) -> seq<byte>,
    decode: (nat, seq<byte>) -> Option<V>,
    upgrade: (nat, V) -> V)

  datatype Error = InsufficientSpace | StableMemoryError | AttemptedDowngrade | CandidError | ExistingVersionIsNewer

  /** `Diverges` is the unbounded recursion of upgrading to the unit type from itself. */
  datatype Upgraded<V> = Value(v: V) | Undecodable | Diverges

  ghost predicate RoundTrips<V(!new)>(f: Family<V>) {
    forall i: nat, v: V, junk: seq<byte> :: f.decode(i, f.encode(i, v) + junk) == Some(v)
  }

  /** Versions grow along the chain, as they do when each is its predecessor's plus one. */
  ghost predicate Increasing<V>(f: Family<V>) {
    && f.versions != [] && f.versions[0] == 0
    && (forall i, j :: 0 <= i < j < |f.versions| ==> f.versions[i] < f.versions[j])
    && (forall i :: 0 <= i < |f.versions| ==> f.versions[i] < U32)
  }

  function VersionBytes(v: nat): (b: seq<byte>)
    ensures |b| == VERSION_SIZE
  {
    [v % 256, v / 256 % 256, v / 256 / 256 % 256, v / 256 / 256 / 256 % 256]
  }

  function BytesVersion(b: seq<byte>): nat
    requires |b| >= VERSION_SIZE
  {
    (b[0] as nat) + 256 * (b[1] as nat) + 0x1_0000 * (b[2] as nat) + 0x100_0000 * (b[3] as nat)
  }

  lemma VersionRoundTrip(v: nat, rest: seq<byte>)
    requires v < U32
    ensures BytesVersion(VersionBytes(v) + rest) == v
    ensures var b := VersionBytes(v);
            v == (b[0] as nat) + 0x100 * (b[1] as nat) + 0x1_0000 * (b[2] as nat) + 0x100_0000 * (b[3] as nat)
  {
    var a, b, c := v / 256, v / 256 / 256, v / 256 / 256 / 256;
    assert v == 256 * a + v % 256 && a == 256 * b + a % 256 && b == 256 * c + b % 256;
    assert c < 256 && c % 256 == c;
  }

  function ReadVersion(bytes: seq<byte>): Option<nat> {
    if |bytes| / PAGE * PAGE < VERSION_SIZE then None
    else assert |bytes| >= VERSION_SIZE; Some(BytesVersion(bytes))
  }

  function RecursiveUpgrade<V>(f: Family<V>, i: nat, version: nat, bytes: seq<byte>): Upgraded<V>
    requires i < |f.versions|
    decreases i
  {
    if version == f.versions[i] then
      match f.decode(i, bytes) case Some(v) => Value(v) case None => Undecodable
    else if i == 0 then Diverges
    else
      match RecursiveUpgrade(f, i - 1, version, bytes)
      case Value(v) => Value(f.upgrade(i, v))
      case Undecodable => Undecodable
      case Diverges => Diverges
  }

  function Read<V>(f: Family<V>, i: nat, bytes: seq<byte>): Result<Upgraded<V>, Error>
    requires i < |f.versions|
  {
    match ReadVersion(bytes)
    case None => Err(InsufficientSpace)
    case Some(version) =>
      assert |bytes| >= VERSION_SIZE;
      if f.versions[i] < version then Err(AttemptedDowngrade)
      else Ok(RecursiveUpgrade(f, i, version, bytes[VERSION_SIZE..]))
  }

  /** The upgrades from type k to type n, in order. */
  function Composed<V>(f: Family<V>, k: nat, n: nat, v: V): V
    requires k <= n
  {
    if n == k then v else f.upgrade(n, Composed(f, k, n - 1, v))
  }

  /** Recursion terminates exactly when the stored version is one of the chain. */
  lemma {:induction false} TerminatesIff<V>(f: Family<V>, i: nat, version: nat, bytes: seq<byte>)
    requires i < |f.versions|
    ensures RecursiveUpgrade(f, i, version, bytes) != Diverges <==> exists j :: 0 <= j <= i && f.versions[j] == version
    decreases i
  {
    if version != f.versions[i] && i > 0 {
      TerminatesIff(f, i - 1, version, bytes);
    }
  }

  lemma {:induction false} UpgradeFrom<V(!new)>(f: Family<V>, k: nat, n: nat, v: V, junk: seq<byte>)
    requires k <= n < |f.versions| && Increasing(f) && RoundTrips(f)
    ensures RecursiveUpgrade(f, n, f.versions[k], f.encode(k, v) + junk) == Value(Composed(f, k, n, v))
    decreases n
  {
    if n > k {
      UpgradeFrom(f, k, n - 1, v, junk);
    }
  }

  /** Memory that starts with a written value. */
  ghost predicate Holds<V>(f: Family<V>, k: nat, v: V, bytes: seq<byte>)
    requires k < |f.versions|
  {
    |bytes| % PAGE == 0 && VersionBytes(f.versions[k]) + f.encode(k, v) <= bytes
  }

  /** The values of the types k to n, each upgraded from the one before. */
  ghost predicate UpgradePath<V(!new)>(f: Family<V>, k: nat, n: nat, v: V, path: seq<V>) {
    && k <= n && |path| == n - k + 1 && path[0] == v
    && forall i :: 0 < i <= n - k ==> path[i] == f.upgrade(k + i, path[i - 1])
  }

  lemma {:induction false} ComposedPath<V(!new)>(f: Family<V>, k: nat, n: nat, v: V) returns (path: seq<V>)
    requires k <= n
    ensures UpgradePath(f, k, n, v, path) && path[n - k] == Composed(f, k, n, v)
    decreases n
  {
    if n == k {
      path := [v];
    } else {
      var shorter := ComposedPath(f, k, n - 1, v);
      path := shorter + [f.upgrade(n, shorter[n - 1 - k])];
    }
  }

  /** Reading type n where type k was written: the value upgraded type by type if k <= n, else a refusal. */
  lemma ReadWritten<V(!new)>(f: Family<V>, k: nat, n: nat, v: V, bytes: seq<byte>) returns (path: seq<V>)
    requires k < |f.versions| && n < |f.versions| && Increasing(f) && RoundTrips(f) && Holds(f, k, v, bytes)
    ensures ReadVersion(bytes) == Some(f.versions[k])
    ensures if k <= n then UpgradePath(f, k, n, v, path) && Read(f, n, bytes) == Ok(Value(path[n - k]))
            else Read(f, n, bytes) == Err(AttemptedDowngrade)
  {
    path := [];
    var head := VersionBytes(f.versions[k]) + f.encode(k, v);
    var junk := bytes[|head|..];
    assert bytes == head + junk;
    assert bytes == VersionBytes(f.versions[k]) + (f.encode(k, v) + junk);
    VersionRoundTrip(f.versions[k], f.encode(k, v) + junk);
    assert bytes[VERSION_SIZE..] == f.encode(k, v) + junk;
    if k <= n {
      UpgradeFrom(f, k, n, v, junk);
      path := ComposedPath(f, k, n, v);
    }
  }

  /** Less than a page holds no version, and what does not decode stays undecodable through all upgrades. */
  lemma {:induction false} ReadNothing<V>(f: Family<V>, i: nat, version: nat, bytes: seq<byte>)
    requires i < |f.versions|
    ensures |bytes| < PAGE ==> Read(f, i, bytes) == Err(InsufficientSpace)
    ensures (exists j ::
               && 0 <= j <= i && f.versions[j] == version && f.decode(j, bytes) == None
               && forall h :: j < h <= i ==> f.versions[h] != version) ==>
            RecursiveUpgrade(f, i, version, bytes) == Undecodable
    decreases i
  {
    if version != f.versions[i] && i > 0 {
      ReadNothing(f, i - 1, version, bytes);
    }
  }

  /** With a gap in the versions a stored version between two types is accepted by the guard and then
      recurses for ever. */
  lemma GapDiverges<V>(f: Family<V>, i: nat, version: nat, bytes: seq<byte>)
    requires i < |f.versions| && version !in f.versions
    ensures RecursiveUpgrade(f, i, version, bytes) == Diverges
  {
    TerminatesIff(f, i, version, bytes);
  }

  /** `write`: refused exactly if something newer is stored; otherwise the version and then the chunks
      of the serialisation go through a fresh writer.  The stored version never decreases, even when
      the memory runs out half way. */
  method Write<V>(f: Family<V>, k: nat, v: V, chunks: seq<seq<byte>>, memory: StableMemory)
    returns (r: Result<(), Error>)
    requires k < |f.versions| && f.versions[k] < U32 && memory.Paged()
    requires Concat(chunks) == f.encode(k, v) && forall c :: c in chunks ==> |c| < U32 - PAGE
    modifies memory
    ensures memory.Paged()
    ensures r == Err(ExistingVersionIsNewer) <==>
              ReadVersion(old(memory.bytes)).Some? && ReadVersion(old(memory.bytes)).value > f.versions[k]
    ensures r == Err(ExistingVersionIsNewer) ==> memory.bytes == old(memory.bytes)
    ensures r.Ok? ==> Holds(f, k, v, memory.bytes)
    ensures r.Err? ==> r.error == ExistingVersionIsNewer || r.error == StableMemoryError
    ensures memory.bytes == old(memory.bytes) || ReadVersion(memory.bytes) == Some(f.versions[k])
  {
    var current := ReadVersion(memory.bytes);
    if current.Some? && current.value > f.versions[k] {
      return Err(ExistingVersionIsNewer);
    }
    var head := VersionBytes(f.versions[k]);
    var writer := new StableWriter(memory);
    var w := writer.Write(head);
    if w != Written(VERSION_SIZE) {
      return Err(StableMemoryError);
    }
    assert [] + head == head;
    var ok := writer.WriteAll(chunks);
    HeadStored(f.versions[k], memory.bytes);
    if !ok {
      return Err(StableMemoryError);
    }
    r := Ok(());
  }

  lemma HeadStored(version: nat, bytes: seq<byte>)
    requires version < U32 && VersionBytes(version) <= bytes && |bytes| % PAGE == 0
    ensures ReadVersion(bytes) == Some(version)
  {
    assert bytes == VersionBytes(version) + bytes[VERSION_SIZE..];
    VersionRoundTrip(version, bytes[VERSION_SIZE..]);
  }

  datatype Job<V> = Job(k: nat, v: V, chunks: seq<seq<byte>>)

  ghost predicate Writable<V>(f: Family<V>, job: Job<V>) {
    && job.k < |f.versions| && f.versions[job.k] < U32
    && Concat(job.chunks) == f.encode(job.k, job.v)
    && forall c :: c in job.chunks ==> |c| < U32 - PAGE
  }

  /** Over any run of writes, failing ones included, the stored version never decreases. */
  method WriteRun<V>(f: Family<V>, jobs: seq<Job<V>>, memory: StableMemory) returns (versions: seq<Option<nat>>)
    requires memory.Paged() && forall job :: job in jobs ==> Writable(f, job)
    modifies memory
    ensures |versions| == |jobs| + 1 && versions[0] == ReadVersion(old(memory.bytes))
    ensures versions[|jobs|] == ReadVersion(memory.bytes)
    ensures forall i, j :: 0 <= i < j < |versions| && versions[i].Some? ==>
              versions[j].Some? && versions[i].value <= versions[j].value
  {
    versions := [ReadVersion(memory.bytes)];
    for i := 0 to |jobs|
      invariant memory.Paged() && |versions| == i + 1 && versions[0] == ReadVersion(old(memory.bytes))
      invariant versions[i] == ReadVersion(memory.bytes)
      invariant forall i', j :: 0 <= i' < j < |versions| && versions[i'].Some? ==>
                  versions[j].Some? && versions[i'].value <= versions[j].value
    {
      var job := jobs[i];
      assert Writable(f, job);
      var _ := Write(f, job.k, job.v, job.chunks, memory);
      versions := versions + [ReadVersion(memory.bytes)];
    }
  }
}

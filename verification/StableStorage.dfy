/** Paged stable memory and its writer (ic-storage/src/testing.rs).  Lengths are unbounded numbers;
    the 32-bit shift that can wrap is written out. */
module StableStorage {
  import opened Arithmetic
  import opened Wrappers

  const PAGE: nat := 0x1_0000
  const U32: nat := 0x1_0000_0000

  function Concat(chunks: seq<seq<byte>>): seq<byte> {
    if chunks == [] then [] else Concat(chunks[..|chunks| - 1]) + chunks[|chunks| - 1]
  }

  class StableMemory {
    var bytes: seq<byte>

    constructor ()
      ensures bytes == []
    {
      bytes := [];
    }

    /** Whole pages only, and fewer bytes than 2^32 - 1. */
    ghost predicate Paged()
      reads this
    {
      |bytes| % PAGE == 0 && |bytes| < U32 - 1
    }

    function Pages(): nat
      reads this
    {
      |bytes| / PAGE
    }

    /** `stable_grow`: the number of added bytes is computed on 32 bits. */
    method Grow(newPages: nat) returns (previous: Option<nat>)
      requires Paged()
      modifies this
      ensures Paged() && old(bytes) <= bytes
      ensures previous.None? ==> bytes == old(bytes)
      ensures previous.None? <==> |old(bytes)| + newPages * PAGE % U32 >= U32 - 1
      ensures previous.Some? ==> previous.value == old(Pages()) && |bytes| == |old(bytes)| + newPages * PAGE % U32
    {
      var additional := newPages * PAGE % U32;
      WholePages(newPages);
      if |bytes| + additional >= U32 - 1 {
        return None;
      }
      previous := Some(Pages());
      bytes := bytes + seq(additional, _ => 0);
    }

    method Write(offset: nat, buf: seq<byte>)
      requires offset + |buf| <= |bytes|
      modifies this
      ensures bytes == old(bytes)[..offset] + buf + old(bytes)[offset + |buf|..]
    {
      bytes := bytes[..offset] + buf + bytes[offset + |buf|..];
    }
  }

  lemma WholePages(pages: nat)
    ensures (pages * PAGE % U32) % PAGE == 0
    ensures pages < U32 / PAGE ==> pages * PAGE % U32 == pages * PAGE
  {
    var q := pages * PAGE / U32;
    assert pages * PAGE % U32 == (pages - q * PAGE) * PAGE;
    assert ((pages - q * PAGE) * PAGE) % PAGE == 0;
  }

  /** `OutOfRange` is the panic of writing outside the grown memory. */
  datatype WriteResult = Written(n: nat) | OutOfMemory | OutOfRange

  class StableWriter {
    const memory: StableMemory
    var offset: nat
    var capacity: nat

    ghost predicate Valid()
      reads this, memory
    {
      memory.Paged() && capacity * PAGE <= |memory.bytes| && offset <= |memory.bytes|
    }

    /** Everything written so far by this writer. */
    ghost function Output(): seq<byte>
      requires Valid()
      reads this, memory
    {
      memory.bytes[..offset]
    }

    constructor (memory: StableMemory)
      requires memory.Paged()
      ensures Valid() && this.memory == memory && offset == 0
    {
      this.memory := memory;
      offset := 0;
      capacity := memory.Pages();
    }

    /** A write within the grown memory appends to the output; a failing one changes nothing.  Only
        buffers of almost 4 GiB, for which the page count wraps, could be written out of range. */
    method Write(buf: seq<byte>) returns (r: WriteResult)
      requires Valid()
      modifies this, memory
      ensures |buf| < U32 - PAGE ==> Valid() && !r.OutOfRange?
      ensures r.Written? ==>
                && r.n == |buf| && offset == old(offset) + |buf| <= |memory.bytes|
                && memory.bytes[..offset] == old(Output()) + buf
                && |old(memory.bytes)| <= |memory.bytes|
      ensures r.OutOfMemory? ==> offset == old(offset) && memory.bytes == old(memory.bytes)
    {
      if offset + |buf| > capacity * PAGE {
        var added := |buf| / PAGE + 1;
        var previous := memory.Grow(added);
        if previous.None? {
          return OutOfMemory;
        }
        capacity := previous.value + added;
        WholePages(added);
        EnoughPages(|buf|, |old(memory.bytes)|);
      }
      if offset + |buf| > |memory.bytes| {
        return OutOfRange;
      }
      memory.Write(offset, buf);
      offset := offset + |buf|;
      r := Written(|buf|);
      assert memory.bytes[..offset] == old(memory.bytes)[..old(offset)] + buf;
    }

    /** However the output is split into chunks, after a successful run the memory starts with their
        concatenation. */
    method WriteAll(chunks: seq<seq<byte>>) returns (ok: bool)
      requires Valid() && forall c :: c in chunks ==> |c| < U32 - PAGE
      modifies this, memory
      ensures Valid()
      ensures ok ==> Output() == old(Output()) + Concat(chunks)
      ensures old(Output()) <= memory.bytes
    {
      ghost var start := Output();
      for i := 0 to |chunks|
        invariant Valid() && Output() == start + Concat(chunks[..i])
      {
        assert chunks[..i + 1][..i] == chunks[..i];
        var r := Write(chunks[i]);
        if r != Written(|chunks[i]|) {
          return false;
        }
      }
      assert chunks[..|chunks|] == chunks;
      ok := true;
    }
  }

  lemma EnoughPages(len: nat, size: nat)
    requires size % PAGE == 0
    ensures len < (len / PAGE + 1) * PAGE
    ensures (size / PAGE + (len / PAGE + 1)) * PAGE == size + (len / PAGE + 1) * PAGE
    ensures len < U32 - PAGE ==> len / PAGE + 1 < U32 / PAGE
  {
  }
}

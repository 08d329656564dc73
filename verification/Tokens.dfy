/** 128- and 256-bit token amounts (ic-helpers/src/tokens.rs).  A `U256` is its 32 little-endian bytes,
    as the conversions see it. */
module Tokens {
  import opened Wrappers
  import opened Arithmetic

  const BYTES_128: nat := 16
  const BYTES_256: nat := 32

  /** Number of values of `n` bytes. */
  function Pow256(n: nat): (p: nat)
    ensures p >= 1
  {
    PowMonotone(256, 0, n);
    Pow(256, n)
  }

  const LIMIT_128: nat := Pow256(BYTES_128)
  const LIMIT_256: nat := Pow256(BYTES_256)

  /** Value of little-endian bytes. */
  function Value(bytes: seq<byte>): nat {
    if bytes == [] then 0 else (bytes[0] as nat) + 256 * Value(bytes[1..])
  }

  /** `n` little-endian bytes of a number. */
  function Bytes(v: nat, n: nat): (b: seq<byte>)
    ensures |b| == n
  {
    if n == 0 then [] else [v % 256] + Bytes(v / 256, n - 1)
  }

  /** `to_bytes_le` of an arbitrary-size number: no trailing zero bytes (zero is one byte). */
  function MinimalBytes(v: nat): seq<byte> {
    if v < 256 then [v] else [v % 256] + MinimalBytes(v / 256)
  }

  lemma {:induction false} ValueBound(bytes: seq<byte>)
    ensures Value(bytes) < Pow256(|bytes|)
  {
    if bytes != [] {
      ValueBound(bytes[1..]);
    }
  }

  lemma {:induction false} BytesValue(v: nat, n: nat)
    requires v < Pow256(n)
    ensures Value(Bytes(v, n)) == v
    decreases n
  {
    if n > 0 {
      BytesValue(v / 256, n - 1);
      assert Bytes(v, n)[1..] == Bytes(v / 256, n - 1);
    }
  }

  lemma {:induction false} ValueBytes(bytes: seq<byte>)
    ensures Bytes(Value(bytes), |bytes|) == bytes
    decreases |bytes|
  {
    if bytes != [] {
      ValueBytes(bytes[1..]);
      assert Value(bytes) % 256 == bytes[0] && Value(bytes) / 256 == Value(bytes[1..]);
    }
  }

  lemma {:induction false} ValueSplit(bytes: seq<byte>, n: nat)
    requires n <= |bytes|
    ensures Value(bytes) == Value(bytes[..n]) + Pow256(n) * Value(bytes[n..])
    decreases n
  {
    if n > 0 {
      var rest := bytes[1..];
      ValueSplit(rest, n - 1);
      assert bytes[..n][1..] == rest[..n - 1] && bytes[n..] == rest[n - 1..];
      var p, q := Pow256(n - 1), Value(bytes[n..]);
      MulAssociates(256, p, q);
    } else {
      assert bytes[0..] == bytes;
    }
  }

  lemma {:induction false} ZeroValueIff(bytes: seq<byte>)
    ensures Value(bytes) == 0 <==> forall i :: 0 <= i < |bytes| ==> bytes[i] == 0
    decreases |bytes|
  {
    if bytes != [] {
      ZeroValueIff(bytes[1..]);
      assert forall i :: 0 <= i < |bytes| - 1 ==> bytes[1..][i] == bytes[i + 1];
      if Value(bytes) == 0 {
        forall i | 0 <= i < |bytes| ensures bytes[i] == 0 {
          if i > 0 {
            assert bytes[1..][i - 1] == 0;
          }
        }
      }
    }
  }

  lemma {:induction false} ValueAppend(bytes: seq<byte>, b: byte)
    ensures Value(bytes + [b]) == Value(bytes) + (b as nat) * Pow256(|bytes|)
  {
    ValueSplit(bytes + [b], |bytes|);
    assert (bytes + [b])[..|bytes|] == bytes && (bytes + [b])[|bytes|..] == [b];
    assert Value([b]) == b;
  }

  /** The value fits `n` bytes exactly when all bytes from the n-th on are zero. */
  lemma FitsIff(bytes: seq<byte>, n: nat)
    requires n <= |bytes|
    ensures Value(bytes) < Pow256(n) <==> forall i :: n <= i < |bytes| ==> bytes[i] == 0
    ensures Value(bytes) < Pow256(n) ==> Value(bytes) == Value(bytes[..n])
  {
    var low, high := bytes[..n], bytes[n..];
    ValueSplit(bytes, n);
    ValueBound(low);
    ZeroValueIff(high);
    ZeroFrom(bytes, n);
    UpperHalf(Value(low), Pow256(n), Value(high), Value(bytes));
  }

  lemma ZeroFrom(bytes: seq<byte>, n: nat)
    requires n <= |bytes|
    ensures (forall i :: 0 <= i < |bytes[n..]| ==> bytes[n..][i] == 0)
            <==> forall i :: n <= i < |bytes| ==> bytes[i] == 0
  {
    assert forall i :: n <= i < |bytes| ==> bytes[i] == bytes[n..][i - n];
    assert forall i :: 0 <= i < |bytes[n..]| ==> bytes[n..][i] == bytes[i + n];
  }

  lemma UpperHalf(low: nat, limit: nat, high: nat, all: nat)
    requires low < limit && all == low + limit * high
    ensures all < limit <==> high == 0
    ensures all < limit ==> all == low
  {
    if high > 0 {
      MulAtLeast(high, limit);
    }
  }

  /** `to_tokens128`: a value exactly when it fits 128 bits, and then the same value.  No partial sum
      exceeds 128 bits. */
  method ToTokens128(bytes: seq<byte>) returns (r: Option<nat>)
    requires |bytes| == BYTES_256
    ensures r == if Value(bytes) < LIMIT_128 then Some(Value(bytes)) else None
  {
    r := Narrow(bytes, BYTES_128);
  }

  /** The same for any byte length: refuses on a non-zero upper byte, else adds up the lower ones. */
  method Narrow(bytes: seq<byte>, n: nat) returns (r: Option<nat>)
    requires n <= |bytes|
    ensures r == if Value(bytes) < Pow256(n) then Some(Value(bytes)) else None
  {
    FitsIff(bytes, n);
    for i := n to |bytes|
      invariant forall j :: n <= j < i ==> bytes[j] == 0
    {
      if bytes[i] != 0 {
        return None;
      }
    }
    var num := SumBytes(bytes, n);
    r := Some(num);
  }

  method SumBytes(bytes: seq<byte>, n: nat) returns (num: nat)
    requires n <= |bytes|
    ensures num == Value(bytes[..n]) < Pow256(n)
  {
    num := 0;
    for i := 0 to n
      invariant num == Value(bytes[..i]) < Pow256(i)
    {
      assert bytes[..i + 1] == bytes[..i] + [bytes[i]];
      ValueAppend(bytes[..i], bytes[i]);
      ValueBound(bytes[..i + 1]);
      num := num + (bytes[i] as nat) * Pow256(i);
    }
  }

  /** `from_nat` for a fixed byte length: pads the minimal bytes, or refuses. */
  function FromNat(v: nat, length: nat): Option<seq<byte>> {
    var bytes := MinimalBytes(v);
    if |bytes| > length then None else Some(bytes + Zeros(length - |bytes|))
  }

  function Zeros(n: nat): (z: seq<byte>)
    ensures |z| == n && forall i :: 0 <= i < n ==> z[i] == 0
  {
    seq(n, _ => 0)
  }

  lemma {:induction false} MinimalValue(v: nat)
    ensures Value(MinimalBytes(v)) == v
    ensures |MinimalBytes(v)| >= 1
    ensures v > 0 ==> Pow256(|MinimalBytes(v)| - 1) <= v
  {
    if v >= 256 {
      MinimalValue(v / 256);
      assert MinimalBytes(v)[1..] == MinimalBytes(v / 256);
      assert Pow256(|MinimalBytes(v)| - 1) == 256 * Pow256(|MinimalBytes(v / 256)| - 1);
    }
  }

  /** `from_nat` accepts exactly the values that fit and `to_nat` gives them back. */
  lemma FromToNat(v: nat, length: nat)
    requires length > 0
    ensures FromNat(v, length).Some? <==> v < Pow256(length)
    ensures v < Pow256(length) ==> FromNat(v, length) == Some(Bytes(v, length)) && Value(FromNat(v, length).value) == v
  {
    MinimalValue(v);
    var bytes := MinimalBytes(v);
    if |bytes| > length {
      PowMonotone(256, length, |bytes| - 1);
    } else {
      ValueBound(bytes);
      PowMonotone(256, |bytes|, length);
      Padding(bytes, length - |bytes|);
      ValueBytes(bytes + Zeros(length - |bytes|));
    }
  }

  lemma Padding(bytes: seq<byte>, n: nat)
    ensures Value(bytes + Zeros(n)) == Value(bytes)
  {
    var padded := bytes + Zeros(n);
    ValueSplit(padded, |bytes|);
    assert padded[..|bytes|] == bytes && padded[|bytes|..] == Zeros(n);
    ZeroValueIff(Zeros(n));
  }

  /** 256-bit saturating multiplication. */
  function SaturatingMul(a: nat, b: nat): nat {
    if a * b < LIMIT_256 then a * b else LIMIT_256 - 1
  }

  /** The product of two 128-bit amounts never saturates; one that does not fit 256 bits becomes the largest value
      that does. */
  lemma ProductExact(a: nat, b: nat)
    ensures a < LIMIT_128 && b < LIMIT_128 ==> SaturatingMul(a, b) == a * b
    ensures a * b >= LIMIT_256 ==> SaturatingMul(a, b) == LIMIT_256 - 1
  {
    if a < LIMIT_128 && b < LIMIT_128 {
      ProductFits(a, b);
    }
  }

  lemma ProductFits(a: nat, b: nat)
    requires a < LIMIT_128 && b < LIMIT_128
    ensures a * b < LIMIT_256
  {
    PowAdd(256, BYTES_128, BYTES_128);
    SmallerProduct(a, b, LIMIT_128);
  }

  lemma SmallerProduct(a: nat, b: nat, limit: nat)
    requires a < limit && b < limit
    ensures a * b < limit * limit
  {
    MulMonotone(a, limit, b);
    MulMonotone(b, limit - 1, limit);
    assert limit * limit == (limit - 1) * limit + limit;
  }
}

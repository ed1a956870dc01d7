/** Big-endian byte strings and the field elements read from them. */
module Bytes {

  type Byte = b: nat | b < 256
  type U32 = n: nat | n < 0x1_0000_0000
  type U64 = n: nat | n < 0x1_0000_0000_0000_0000
  type U128 = n: nat | n < 0x1_0000_0000_0000_0000_0000_0000_0000_0000

  /** The field's prime, 2^251 + 17 * 2^192 + 1. */
  const PRIME: nat := 0x0800_0000_0000_0011_0000_0000_0000_0000_0000_0000_0000_0000_0000_0000_0000_0001

  type FieldElement = n: nat | n < PRIME

  function Pow256(n: nat): (r: nat)
    ensures r > 0
  {
    if n == 0 then 1 else 256 * Pow256(n - 1)
  }

  function FromBytes(bs: seq<Byte>): nat {
    if bs == [] then 0 else 256 * FromBytes(bs[..|bs| - 1]) + bs[|bs| - 1]
  }

  function ToBytes(n: nat, len: nat): (r: seq<Byte>)
    ensures |r| == len
    decreases len
  {
    if len == 0 then [] else ToBytes(n / 256, len - 1) + [n % 256]
  }

  function Zeros(len: nat): seq<Byte> {
    seq(len, _ => 0)
  }

  lemma {:induction false} FromToBytes(n: nat, len: nat)
    requires n < Pow256(len)
    ensures FromBytes(ToBytes(n, len)) == n
    decreases len
  {
    if len > 0 {
      FromToBytes(n / 256, len - 1);
      assert ToBytes(n, len)[..len - 1] == ToBytes(n / 256, len - 1);
    }
  }

  lemma {:induction false} FromBytesBound(bs: seq<Byte>)
    ensures FromBytes(bs) < Pow256(|bs|)
  {
    if bs != [] {
      FromBytesBound(bs[..|bs| - 1]);
    }
  }

  lemma {:induction false} FromZeros(len: nat)
    ensures FromBytes(Zeros(len)) == 0
  {
    if len > 0 {
      assert Zeros(len)[..len - 1] == Zeros(len - 1);
      FromZeros(len - 1);
    }
  }

  lemma Shifted(n: nat, p: nat, m: nat)
    ensures 256 * (n * p + m) == n * (256 * p) + 256 * m
  {
  }

  lemma {:induction false} FromConcat(a: seq<Byte>, b: seq<Byte>)
    ensures FromBytes(a + b) == FromBytes(a) * Pow256(|b|) + FromBytes(b)
    decreases |b|
  {
    if b == [] {
      assert a + b == a;
    } else {
      var b' := b[..|b| - 1];
      assert (a + b)[..|a + b| - 1] == a + b';
      FromConcat(a, b');
      Shifted(FromBytes(a), Pow256(|b'|), FromBytes(b'));
    }
  }

  lemma Powers()
    ensures Pow256(4) == 0x1_0000_0000
    ensures Pow256(8) == 0x1_0000_0000_0000_0000
    ensures Pow256(16) == 0x1_0000_0000_0000_0000_0000_0000_0000_0000
    ensures Pow256(32) == 0x1_0000_0000_0000_0000_0000_0000_0000_0000_0000_0000_0000_0000_0000_0000_0000_0000
  {
    assert Pow256(4) == 0x1_0000_0000;
    assert Pow256(8) == 0x1_0000_0000_0000_0000;
    assert Pow256(12) == 0x1_0000_0000_0000_0000_0000_0000;
    assert Pow256(16) == 0x1_0000_0000_0000_0000_0000_0000_0000_0000;
    assert Pow256(20) == 0x1_0000_0000_0000_0000_0000_0000_0000_0000_0000_0000;
    assert Pow256(24) == 0x1_0000_0000_0000_0000_0000_0000_0000_0000_0000_0000_0000_0000;
    assert Pow256(28) == 0x1_0000_0000_0000_0000_0000_0000_0000_0000_0000_0000_0000_0000_0000_0000;
  }

  predicate IsAscii(s: string) {
    forall k | 0 <= k < |s| :: s[k] as nat < 128
  }

  function TextBytes(s: string): (r: seq<Byte>)
    requires IsAscii(s)
    ensures |r| == |s| && forall k | 0 <= k < |s| :: r[k] == s[k] as nat
  {
    seq(|s|, k requires 0 <= k < |s| => s[k] as nat)
  }

  lemma {:induction false} LeadingByte(bs: seq<Byte>)
    requires bs != [] && bs[0] > 0
    ensures FromBytes(bs) > 0
  {
    if |bs| > 1 {
      LeadingByte(bs[..|bs| - 1]);
    }
  }

  /** Byte strings without leading zeros are told apart by their numbers, whatever their lengths. */
  lemma {:induction false} FromBytesInjective(a: seq<Byte>, b: seq<Byte>)
    requires a != [] && a[0] > 0 && b != [] && b[0] > 0
    requires FromBytes(a) == FromBytes(b)
    ensures a == b
  {
    var a', b' := a[..|a| - 1], b[..|b| - 1];
    assert a[|a| - 1] == b[|b| - 1] && FromBytes(a') == FromBytes(b');
    if a' != [] {
      LeadingByte(a');
    }
    if b' != [] {
      LeadingByte(b');
    }
    if a' != [] {
      FromBytesInjective(a', b');
    }
    assert a == a' + [a[|a| - 1]] && b == b' + [b[|b| - 1]];
  }

  function Splice(bs: seq<Byte>, at: nat, src: seq<Byte>): (r: seq<Byte>)
    requires at + |src| <= |bs|
    ensures |r| == |bs|
  {
    bs[..at] + src + bs[at + |src|..]
  }

  /** Copies a slice into part of a buffer. */
  method CopyFromSlice(buffer: array<Byte>, at: nat, src: seq<Byte>)
    requires at + |src| <= buffer.Length
    modifies buffer
    ensures buffer[..] == Splice(old(buffer[..]), at, src)
  {
    var i := 0;
    while i < |src|
      invariant 0 <= i <= |src|
      invariant buffer[..] == Splice(old(buffer[..]), at, src[..i])
    {
      buffer[at + i] := src[i];
      i := i + 1;
    }
  }
}

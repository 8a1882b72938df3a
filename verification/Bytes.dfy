/**
 Bytes, machine-width integers and the little-endian codec that every layer shares.

 `LE` and `Val` are the mathematical codec; the `Put`/`Get` methods are the in-place
 routines that write into and read from a caller's buffer.
 */
module Bytes {

  type byte = x: int | 0 <= x < 0x100
  type u8 = byte
  type u16 = x: int | 0 <= x < 0x1_0000
  type u32 = x: int | 0 <= x < 0x1_0000_0000
  type u64 = x: int | 0 <= x < 0x1_0000_0000_0000_0000

  const TWO32: int := 0x1_0000_0000
  const TWO64: int := 0x1_0000_0000_0000_0000

  datatype Option<+T> = None | Some(value: T)

  function Min(a: nat, b: nat): nat {
    if a < b then a else b
  }

  /** The two- and four-byte words, least significant byte first. */
  function LE16(v: u16): (s: seq<byte>)
    ensures |s| == 2
  {
    [v % 0x100, v / 0x100]
  }

  function LE32(v: u32): (s: seq<byte>)
    ensures |s| == 4
  {
    [v % 0x100, v / 0x100 % 0x100, v / 0x1_0000 % 0x100, v / 0x100_0000]
  }

  function Word16(b0: int, b1: int): int {
    b0 + 0x100 * b1
  }

  function Word32(b0: int, b1: int, b2: int, b3: int): int {
    b0 + 0x100 * b1 + 0x1_0000 * b2 + 0x100_0000 * b3
  }

  function U16At(s: seq<byte>, off: nat): u16
    requires off + 2 <= |s|
  {
    Word16(s[off], s[off + 1])
  }

  function U32At(s: seq<byte>, off: nat): u32
    requires off + 4 <= |s|
  {
    Word32(s[off], s[off + 1], s[off + 2], s[off + 3])
  }

  /** The low n bytes of v, least significant first: the byte loop of the 64-bit codec. */
  function LE(v: nat, n: nat): (s: seq<byte>)
    ensures |s| == n
  {
    if n == 0 then [] else [v % 0x100] + LE(v / 0x100, n - 1)
  }

  /** The number a little-endian byte string stands for. */
  function Val(s: seq<byte>): nat {
    if s == [] then 0 else s[0] + 0x100 * Val(s[1..])
  }

  /** 256 to the n-th power: how many values n bytes can hold. */
  function Pow256(n: nat): nat {
    if n == 0 then 1 else 0x100 * Pow256(n - 1)
  }

  lemma Pow256Of4()
    ensures Pow256(4) == TWO32
  {
    assert Pow256(2) == 0x1_0000;
    assert Pow256(4) == 0x100 * Pow256(3) == 0x1_0000 * Pow256(2);
  }

  lemma Pow256Of8()
    ensures Pow256(8) == TWO64
  {
    Pow256Of4();
    assert Pow256(6) == 0x100 * Pow256(5) == 0x1_0000 * Pow256(4);
    assert Pow256(8) == 0x100 * Pow256(7) == 0x1_0000 * Pow256(6);
  }

  lemma ValFrom(s: seq<byte>, i: nat)
    requires i < |s|
    ensures Val(s[i..]) == s[i] + 0x100 * Val(s[i + 1..])
  {
    assert s[i..][0] == s[i] && s[i..][1..] == s[i + 1..];
  }

  lemma {:induction false} ValIsBounded(s: seq<byte>)
    ensures Val(s) < Pow256(|s|)
  {
    if s != [] {
      ValIsBounded(s[1..]);
    }
  }

  lemma {:induction false} ValOfLE(v: nat, n: nat)
    requires v < Pow256(n)
    ensures Val(LE(v, n)) == v
  {
    if n > 0 {
      ValOfLE(v / 0x100, n - 1);
      assert LE(v, n)[1..] == LE(v / 0x100, n - 1);
    }
  }

  lemma {:induction false} LEOfVal(s: seq<byte>)
    ensures LE(Val(s), |s|) == s
  {
    if s != [] {
      LEOfVal(s[1..]);
      assert Val(s) == s[0] + 0x100 * Val(s[1..]);
      assert Val(s) % 0x100 == s[0] && Val(s) / 0x100 == Val(s[1..]);
      assert s == [s[0]] + s[1..];
    }
  }

  function U64At(s: seq<byte>, off: nat): u64
    requires off + 8 <= |s|
  {
    ValIsBounded(s[off..off + 8]);
    Pow256Of8();
    Val(s[off..off + 8])
  }

  /** A word read back from where it was written, whatever surrounds it. */
  lemma Read16(pre: seq<byte>, v: u16, post: seq<byte>)
    ensures U16At(pre + LE16(v) + post, |pre|) == v
  {
    var s := pre + LE16(v) + post;
    assert s[|pre|] == LE16(v)[0] && s[|pre| + 1] == LE16(v)[1];
  }

  lemma BytesOfWord32(v: u32)
    ensures Word32(v % 0x100, v / 0x100 % 0x100, v / 0x1_0000 % 0x100, v / 0x100_0000) == v
  {
    assert v / 0x1_0000 == v / 0x100 / 0x100 && v / 0x100_0000 == v / 0x1_0000 / 0x100;
  }

  lemma Read32(pre: seq<byte>, v: u32, post: seq<byte>)
    ensures U32At(pre + LE32(v) + post, |pre|) == v
  {
    var s := pre + LE32(v) + post;
    assert s[|pre|] == LE32(v)[0] && s[|pre| + 1] == LE32(v)[1];
    assert s[|pre| + 2] == LE32(v)[2] && s[|pre| + 3] == LE32(v)[3];
    BytesOfWord32(v);
  }

  lemma Read64(pre: seq<byte>, v: u64, post: seq<byte>)
    ensures U64At(pre + LE(v, 8) + post, |pre|) == v
  {
    assert (pre + LE(v, 8) + post)[|pre|..|pre| + 8] == LE(v, 8);
    Pow256Of8();
    ValOfLE(v, 8);
  }

  /** Re-encoding a word that was read gives back its bytes. */
  lemma Write16(s: seq<byte>, off: nat)
    requires off + 2 <= |s|
    ensures LE16(U16At(s, off)) == s[off..off + 2]
  {
  }

  lemma Word32OfBytes(b0: byte, b1: byte, b2: byte, b3: byte)
    ensures LE32(Word32(b0, b1, b2, b3)) == [b0, b1, b2, b3]
  {
    var v := Word32(b0, b1, b2, b3);
    var w1: int := Word32(b1, b2, b3, 0);
    var w2: int := Word16(b2, b3);
    assert v % 0x100 == b0 && v / 0x100 == w1 by {
      assert v == 0x100 * w1 + b0;
    }
    assert v / 0x1_0000 == w2 by {
      assert v == 0x1_0000 * w2 + Word16(b0, b1);
    }
    assert v / 0x100_0000 == b3 by {
      assert v == 0x100_0000 * b3 + Word32(b0, b1, b2, 0);
    }
    assert w1 % 0x100 == b1 by {
      assert w1 == 0x100 * w2 + b1;
    }
    assert w2 % 0x100 == b2;
  }

  lemma Write32(s: seq<byte>, off: nat)
    requires off + 4 <= |s|
    ensures LE32(U32At(s, off)) == s[off..off + 4]
  {
    Word32OfBytes(s[off], s[off + 1], s[off + 2], s[off + 3]);
  }

  /** s with the bytes b laid over it from position off. */
  function Overlay(s: seq<byte>, off: nat, b: seq<byte>): (r: seq<byte>)
    requires off + |b| <= |s|
    ensures |r| == |s|
  {
    s[..off] + b + s[off + |b|..]
  }

  /** A write into a buffer is an overlay: the same bytes before and after it. */
  lemma OverlayIsSplice(s: seq<byte>, off: nat, b: seq<byte>, r: seq<byte>)
    requires off + |b| <= |s| == |r|
    requires r[..off + |b|] == s[..off] + b
    requires forall k | off + |b| <= k < |r| :: r[k] == s[k]
    ensures r == Overlay(s, off, b)
  {
    assert r == r[..off + |b|] + r[off + |b|..];
  }

  /** Words and slices of a slice, seen in the whole. */
  lemma SubSlice(s: seq<byte>, off: nat, len: nat, a: nat, b: nat)
    requires off + len <= |s| && a <= b <= len
    ensures s[off..off + len][a..b] == s[off + a..off + b]
    ensures b == len ==> s[off..off + len][a..] == s[off + a..off + b]
  {
    var t := s[off..off + len];
    assert forall k | 0 <= k < b - a :: t[a..b][k] == s[off..][a + k];
    assert t[a..b] == s[off + a..off + b];
    if b == len {
      assert t[a..] == t[a..b];
    }
  }

  lemma WordOfSlice(s: seq<byte>, off: nat, len: nat, at: nat)
    requires off + len <= |s| && at + 2 <= len
    ensures U16At(s[off..off + len], at) == U16At(s, off + at)
  {
  }

  lemma LongOfSlice(s: seq<byte>, off: nat, len: nat, at: nat)
    requires off + len <= |s| && at + 4 <= len
    ensures U32At(s[off..off + len], at) == U32At(s, off + at)
  {
  }

  lemma WordOfPrefix(s: seq<byte>, n: nat, off: nat)
    requires off + 2 <= n <= |s|
    ensures U16At(s[..n], off) == U16At(s, off)
  {
  }

  lemma LongOfPrefix(s: seq<byte>, n: nat, off: nat)
    requires off + 4 <= n <= |s|
    ensures U32At(s[..n], off) == U32At(s, off)
  {
  }

  /** memcpy of a value into a buffer. */
  method Put(buf: array<byte>, off: nat, b: seq<byte>)
    requires off + |b| <= buf.Length
    modifies buf
    ensures buf[..off + |b|] == old(buf[..off]) + b
    ensures forall k | off + |b| <= k < buf.Length :: buf[k] == old(buf[k])
  {
    var i := 0;
    while i < |b|
      invariant 0 <= i <= |b|
      invariant buf[..off + i] == old(buf[..off]) + b[..i]
      invariant forall k | off + i <= k < buf.Length :: buf[k] == old(buf[k])
    {
      buf[off + i] := b[i];
      i := i + 1;
    }
    assert b[..i] == b;
  }

  method PutU16(buf: array<byte>, off: nat, v: u16)
    requires off + 2 <= buf.Length
    modifies buf
    ensures buf[..off + 2] == old(buf[..off]) + LE16(v)
    ensures forall k | off + 2 <= k < buf.Length :: buf[k] == old(buf[k])
  {
    buf[off] := v % 0x100;
    buf[off + 1] := v / 0x100;
  }

  method PutU32(buf: array<byte>, off: nat, v: u32)
    requires off + 4 <= buf.Length
    modifies buf
    ensures buf[..off + 4] == old(buf[..off]) + LE32(v)
    ensures forall k | off + 4 <= k < buf.Length :: buf[k] == old(buf[k])
  {
    buf[off] := v % 0x100;
    buf[off + 1] := v / 0x100 % 0x100;
    buf[off + 2] := v / 0x1_0000 % 0x100;
    buf[off + 3] := v / 0x100_0000;
  }

  method PutU64(buf: array<byte>, off: nat, v: u64)
    requires off + 8 <= buf.Length
    modifies buf
    ensures buf[..off + 8] == old(buf[..off]) + LE(v, 8)
    ensures forall k | off + 8 <= k < buf.Length :: buf[k] == old(buf[k])
  {
    ghost var done: seq<byte> := [];
    var i := 0;
    var rest: nat := v;          // v >> (8 * i)
    while i < 8
      invariant 0 <= i <= 8 && |done| == i
      invariant done + LE(rest, 8 - i) == LE(v, 8)
      invariant buf[..off + i] == old(buf[..off]) + done
      invariant forall k | off + 8 <= k < buf.Length :: buf[k] == old(buf[k])
    {
      buf[off + i] := rest % 0x100;
      assert buf[..off + i + 1] == buf[..off + i] + [rest % 0x100];
      assert done + LE(rest, 8 - i) == (done + [rest % 0x100]) + LE(rest / 0x100, 7 - i);
      done := done + [rest % 0x100];
      rest := rest / 0x100;
      i := i + 1;
    }
  }

  method GetU16(buf: array<byte>, off: nat) returns (v: u16)
    requires off + 2 <= buf.Length
    ensures v == U16At(buf[..], off)
  {
    v := Word16(buf[off], buf[off + 1]);
  }

  method GetU32(buf: array<byte>, off: nat) returns (v: u32)
    requires off + 4 <= buf.Length
    ensures v == U32At(buf[..], off)
  {
    v := Word32(buf[off], buf[off + 1], buf[off + 2], buf[off + 3]);
  }

  method GetU64(buf: array<byte>, off: nat) returns (v: u64)
    requires off + 8 <= buf.Length
    ensures v == U64At(buf[..], off)
  {
    ghost var s := buf[..][off..off + 8];
    ghost var r := U64At(buf[..], off);
    var acc: int := 0;
    var i := 7;
    while i >= 0
      invariant -1 <= i <= 7
      invariant acc == Val(s[i + 1..])
    {
      ValFrom(s, i);
      var octet: int := buf[off + i];
      acc := 0x100 * acc + octet;
      i := i - 1;
    }
    assert s[0..] == s;
    assert acc == r;
    v := acc;
  }
}

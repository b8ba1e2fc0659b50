/** Little-endian integers in a run of bytes, and what writing some bytes leaves alone. */
module Bytes {
  import Int32

  type byte = b: int | 0 <= b < 0x100
  type int32 = Int32.Value
  type int64 = x: int | -0x8000_0000_0000_0000 <= x < 0x8000_0000_0000_0000

  function Dec(b: seq<byte>): nat {
    if b == [] then 0 else b[0] + 0x100 * Dec(b[1..])
  }

  function Enc(u: nat, k: nat): (b: seq<byte>)
    ensures |b| == k
  {
    if k == 0 then [] else [u % 0x100] + Enc(u / 0x100, k - 1)
  }

  function Pow(k: nat): nat {
    if k == 0 then 1 else 0x100 * Pow(k - 1)
  }

  lemma {:induction false} DecEnc(u: nat, k: nat)
    requires u < Pow(k)
    ensures Dec(Enc(u, k)) == u
  {
    if k > 0 {
      DecEnc(u / 0x100, k - 1);
      assert Enc(u, k)[1..] == Enc(u / 0x100, k - 1);
    }
  }

  lemma {:induction false} DecBound(b: seq<byte>)
    ensures Dec(b) < Pow(|b|)
  {
    if b != [] {
      DecBound(b[1..]);
    }
  }

  lemma Powers()
    ensures Pow(4) == 0x1_0000_0000 && Pow(8) == 0x1_0000_0000_0000_0000
  {
    assert Pow(1) == 0x100;
    assert Pow(2) == 0x1_0000;
    assert Pow(3) == 0x100_0000;
    assert Pow(4) == 0x1_0000_0000;
    assert Pow(5) == 0x100_0000_0000;
    assert Pow(6) == 0x1_0000_0000_0000;
    assert Pow(7) == 0x100_0000_0000_0000;
  }

  function OfInt32(v: int32): (b: seq<byte>)
    ensures |b| == 4
  {
    Enc(if v < 0 then v + 0x1_0000_0000 else v, 4)
  }

  function ToInt32(b: seq<byte>): int32
    requires |b| == 4
  {
    DecBound(b);
    Powers();
    if Dec(b) >= 0x8000_0000 then Dec(b) - 0x1_0000_0000 else Dec(b)
  }

  function OfInt64(v: int64): (b: seq<byte>)
    ensures |b| == 8
  {
    Enc(if v < 0 then v + 0x1_0000_0000_0000_0000 else v, 8)
  }

  function ToInt64(b: seq<byte>): int64
    requires |b| == 8
  {
    DecBound(b);
    Powers();
    if Dec(b) >= 0x8000_0000_0000_0000 then Dec(b) - 0x1_0000_0000_0000_0000 else Dec(b)
  }

  lemma Int32RoundTrip(v: int32)
    ensures ToInt32(OfInt32(v)) == v
  {
    Powers();
    DecEnc(if v < 0 then v + 0x1_0000_0000 else v, 4);
  }

  lemma Int64RoundTrip(v: int64)
    ensures ToInt64(OfInt64(v)) == v
  {
    Powers();
    DecEnc(if v < 0 then v + 0x1_0000_0000_0000_0000 else v, 8);
  }

  // Four bytes, the lowest first.
  function Word(a: int, b: int, c: int, d: int): int {
    a + 0x100 * b + 0x1_0000 * c + 0x100_0000 * d
  }

  // Which byte counts how much: the lowest comes first, and the highest carries the sign.
  lemma LittleEndian32(b: seq<byte>)
    requires |b| == 4
    ensures ToInt32(b) == Word(b[0], b[1], b[2], b[3]) - if b[3] >= 0x80 then 0x1_0000_0000 else 0
  {
    DecFour(b);
  }

  lemma LittleEndian64(b: seq<byte>)
    requires |b| == 8
    ensures ToInt64(b) == Word(b[0], b[1], b[2], b[3]) + 0x1_0000_0000 * Word(b[4], b[5], b[6], b[7])
                          - if b[7] >= 0x80 then 0x1_0000_0000_0000_0000 else 0
  {
    DecFour(b);
    DecFour(b[4..]);
  }

  lemma DecFour(b: seq<byte>)
    requires |b| >= 4
    ensures Dec(b) == Word(b[0], b[1], b[2], b[3]) + 0x1_0000_0000 * Dec(b[4..])
  {
    assert b[1..][1..] == b[2..] && b[2..][1..] == b[3..] && b[3..][1..] == b[4..];
    assert Dec(b[1..]) == b[1] + 0x100 * Dec(b[2..]);
    assert Dec(b[2..]) == b[2] + 0x100 * Dec(b[3..]);
    assert Dec(b[3..]) == b[3] + 0x100 * Dec(b[4..]);
  }

  // ---- reading and writing at an offset ----

  function Read32(m: seq<byte>, off: nat): int32
    requires off + 4 <= |m|
  {
    ToInt32(m[off..off + 4])
  }

  function Read64(m: seq<byte>, off: nat): int64
    requires off + 8 <= |m|
  {
    ToInt64(m[off..off + 8])
  }

  function Write(m: seq<byte>, off: nat, b: seq<byte>): (m': seq<byte>)
    requires off + |b| <= |m|
    ensures |m'| == |m|
  {
    m[..off] + b + m[off + |b|..]
  }

  // The two runs of bytes agree outside lo..hi-1.
  ghost predicate SameOutside(m: seq<byte>, n: seq<byte>, lo: int, hi: int) {
    |m| == |n| && forall k | 0 <= k < |m| && !(lo <= k < hi) :: m[k] == n[k]
  }

  lemma WriteSame(m: seq<byte>, off: nat, b: seq<byte>)
    requires off + |b| <= |m|
    ensures SameOutside(m, Write(m, off, b), off, off + |b|) && Write(m, off, b)[off..off + |b|] == b
  {}

  lemma SliceSame(m: seq<byte>, n: seq<byte>, lo: int, hi: int, a: nat, b: nat)
    requires SameOutside(m, n, lo, hi) && a <= b <= |m| && (b <= lo || hi <= a)
    ensures m[a..b] == n[a..b]
  {}

  lemma Wider(m: seq<byte>, n: seq<byte>, lo: int, hi: int, lo': int)
    requires SameOutside(m, n, lo, hi) && lo' <= lo
    ensures SameOutside(m, n, lo', hi)
  {}

  lemma SameTrans(m: seq<byte>, n: seq<byte>, p: seq<byte>, lo: int, hi: int, lo': int, hi': int)
    requires SameOutside(m, n, lo, hi) && SameOutside(n, p, lo', hi')
    ensures SameOutside(m, p, if lo < lo' then lo else lo', if hi < hi' then hi' else hi)
  {}

  lemma Write32(m: seq<byte>, off: nat, v: int32)
    requires off + 4 <= |m|
    ensures Read32(Write(m, off, OfInt32(v)), off) == v && SameOutside(m, Write(m, off, OfInt32(v)), off, off + 4)
  {
    hide ToInt32, OfInt32;
    WriteSame(m, off, OfInt32(v));
    Int32RoundTrip(v);
  }

  lemma Write64(m: seq<byte>, off: nat, v: int64)
    requires off + 8 <= |m|
    ensures Read64(Write(m, off, OfInt64(v)), off) == v && SameOutside(m, Write(m, off, OfInt64(v)), off, off + 8)
  {
    hide ToInt64, OfInt64;
    WriteSame(m, off, OfInt64(v));
    Int64RoundTrip(v);
  }
}

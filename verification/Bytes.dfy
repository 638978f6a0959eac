/** Little-endian integers inside byte strings. */
module Bytes {
  import opened Prelude

  function Pow256(k: nat): nat {
    if k == 0 then 1 else 256 * Pow256(k - 1)
  }

  function LeNat(b: seq<byte>): nat {
    if b == [] then 0 else b[0] + 256 * LeNat(b[1..])
  }

  function LeBytes(n: nat, width: nat): (b: seq<byte>)
    ensures |b| == width
  {
    if width == 0 then [] else [n % 256] + LeBytes(n / 256, width - 1)
  }

  lemma {:induction false} LeNatBound(b: seq<byte>)
    ensures LeNat(b) < Pow256(|b|)
  {
    if b != [] {
      LeNatBound(b[1..]);
    }
  }

  lemma {:induction false} LeRoundTrip(n: nat, width: nat)
    requires n < Pow256(width)
    ensures LeNat(LeBytes(n, width)) == n
  {
    if width > 0 {
      LeRoundTrip(n / 256, width - 1);
    }
  }

  lemma {:induction false} Pow256Values()
    ensures Pow256(4) == 0x1_0000_0000
    ensures Pow256(8) == U64_MAX + 1
    ensures Pow256(16) == U128_MAX + 1
  {
    assert Pow256(12) == Pow256(4) * 0x1_0000_0000_0000_0000;
  }

  /** `u64::from_le_bytes(b[off..off + 8])`, or None when the slice does not exist. */
  function U64At(b: seq<byte>, off: nat): (r: Option<u64>)
    ensures r.Some? <==> off + 8 <= |b|
  {
    if off + 8 <= |b| then
      LeNatBound(b[off..off + 8]); Pow256Values();
      Some(LeNat(b[off..off + 8]))
    else None
  }

  /** Two's complement reading of 16 little-endian bytes. */
  function I128At(b: seq<byte>, off: nat): (r: Option<i128>)
    ensures r.Some? <==> off + 16 <= |b|
  {
    if off + 16 <= |b| then
      LeNatBound(b[off..off + 16]); Pow256Values();
      var n := LeNat(b[off..off + 16]);
      Some(if n <= I128_MAX then n else n - U128_MAX - 1)
    else None
  }

  function I128Bytes(v: i128): (b: seq<byte>)
    ensures |b| == 16
  {
    LeBytes(if v >= 0 then v else v + U128_MAX + 1, 16)
  }

  lemma {:induction false} U64First(v: u64, t: seq<byte>)
    ensures U64At(LeBytes(v, 8) + t, 0) == Some(v)
  {
    var b := LeBytes(v, 8) + t;
    assert b[0..8] == LeBytes(v, 8);
    Pow256Values();
    LeRoundTrip(v, 8);
  }

  lemma {:induction false} SliceSkip(x: seq<byte>, t: seq<byte>, from: nat, to: nat)
    requires |x| <= from <= to <= |x| + |t|
    ensures (x + t)[from..to] == t[from - |x|..to - |x|]
  {
  }

  lemma {:induction false} U64Skip(x: seq<byte>, t: seq<byte>, off: nat)
    requires |x| <= off
    ensures U64At(x + t, off) == U64At(t, off - |x|)
  {
    if off + 8 <= |x| + |t| {
      SliceSkip(x, t, off, off + 8);
    }
  }

  lemma {:induction false} I128AtWritten(before: seq<byte>, v: i128, after: seq<byte>)
    ensures I128At(before + I128Bytes(v) + after, |before|) == Some(v)
  {
    var b := before + I128Bytes(v) + after;
    assert b[|before|..|before| + 16] == I128Bytes(v);
    Pow256Values();
    LeRoundTrip(if v >= 0 then v else v + U128_MAX + 1, 16);
  }

  lemma {:induction false} SameInsideSlice(b: seq<byte>, extra: seq<byte>, off: nat)
    ensures off + 8 <= |b| ==> U64At(b + extra, off) == U64At(b, off)
    ensures off + 16 <= |b| ==> I128At(b + extra, off) == I128At(b, off)
  {
    if off + 8 <= |b| {
      assert (b + extra)[off..off + 8] == b[off..off + 8];
    }
    if off + 16 <= |b| {
      assert (b + extra)[off..off + 16] == b[off..off + 16];
    }
  }
}

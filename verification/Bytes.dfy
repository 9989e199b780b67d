/** Byte strings: little-endian numbers, and writing into a byte string at an offset. */
module Bytes {

  type Byte = x: int | 0 <= x < 256

  const U32: nat := 0x1_0000_0000
  const U64: nat := 0x1_0000_0000_0000_0000

  function Pow256(w: nat): (p: nat)
    ensures p > 0
  {
    if w == 0 then 1 else 256 * Pow256(w - 1)
  }

  /** The low `w` bytes of `n`, lowest first. */
  function LE(n: nat, w: nat): (s: seq<Byte>)
    ensures |s| == w
  {
    if w == 0 then [] else [n % 256] + LE(n / 256, w - 1)
  }

  function Num(s: seq<Byte>): nat {
    if s == [] then 0 else s[0] + 256 * Num(s[1..])
  }

  lemma PowValues()
    ensures Pow256(4) == U32 && Pow256(8) == U64
  {
    assert Pow256(2) == 0x1_0000;
    assert Pow256(4) == 0x1_0000 * Pow256(2);
    assert Pow256(6) == 0x1_0000 * Pow256(4);
    assert Pow256(8) == 0x1_0000 * Pow256(6);
  }

  lemma {:induction false} NumLE(n: nat, w: nat)
    requires n < Pow256(w)
    ensures Num(LE(n, w)) == n
  {
    if w == 0 {
    } else {
      NumLE(n / 256, w - 1);
      assert LE(n, w)[1..] == LE(n / 256, w - 1);
    }
  }

  lemma {:induction false} LENum(s: seq<Byte>)
    ensures LE(Num(s), |s|) == s && Num(s) < Pow256(|s|)
    decreases |s|
  {
    if s == [] {
    } else {
      LENum(s[1..]);
      assert s == [s[0]] + s[1..];
    }
  }

  /** The low `w` bytes of `n`, highest first. */
  function BE(n: nat, w: nat): (s: seq<Byte>)
    ensures |s| == w
  {
    if w == 0 then [] else BE(n / 256, w - 1) + [n % 256]
  }

  function Big(s: seq<Byte>): nat {
    if s == [] then 0 else 256 * Big(s[..|s| - 1]) + s[|s| - 1]
  }

  lemma {:induction false} BigBE(n: nat, w: nat)
    requires n < Pow256(w)
    ensures Big(BE(n, w)) == n
  {
    if w == 0 {
    } else {
      BigBE(n / 256, w - 1);
      assert BE(n, w)[..w - 1] == BE(n / 256, w - 1);
    }
  }

  lemma {:induction false} BEBig(s: seq<Byte>)
    ensures BE(Big(s), |s|) == s && Big(s) < Pow256(|s|)
    decreases |s|
  {
    if s == [] {
    } else {
      var n := |s| - 1;
      BEBig(s[..n]);
      assert s == s[..n] + [s[n]];
      assert Big(s) / 256 == Big(s[..n]) && Big(s) % 256 == s[n];
    }
  }

  lemma Num8(s: seq<Byte>)
    requires |s| == 8
    ensures Num(s) < U64 && LE(Num(s), 8) == s
  {
    LENum(s);
    PowValues();
  }

  lemma Big16(s: seq<Byte>)
    requires |s| == 16
    ensures Big(s) < Pow256(16) && BE(Big(s), 16) == s
  {
    BEBig(s);
  }

  lemma Num4(s: seq<Byte>)
    requires |s| == 4
    ensures Num(s) < U32 && LE(Num(s), 4) == s
  {
    LENum(s);
    PowValues();
  }

  lemma LE8(n: nat)
    requires n < U64
    ensures Num(LE(n, 8)) == n
  {
    PowValues();
    NumLE(n, 8);
  }

  lemma LE4(n: nat)
    requires n < U32
    ensures Num(LE(n, 4)) == n
  {
    PowValues();
    NumLE(n, 4);
  }

  /** A 64-bit number in a table entry. */
  function Word(n: nat): (s: seq<Byte>)
    ensures |s| == 8
  {
    seq(8, k requires 0 <= k < 8 => LE(n, 8)[k])
  }

  /** A UUID in a table entry. */
  function Id(n: nat): (s: seq<Byte>)
    ensures |s| == 16
  {
    seq(16, k requires 0 <= k < 16 => BE(n, 16)[k])
  }

  lemma WordRoundTrip(s: seq<Byte>, n: nat)
    requires |s| == 8
    ensures Num(s) == n <==> n < U64 && s == Word(n)
  {
    Num8(s);
    assert Word(n) == LE(n, 8);
    if n < U64 { LE8(n); }
  }

  lemma IdRoundTrip(s: seq<Byte>, n: nat)
    requires |s| == 16
    ensures Big(s) == n <==> n < Pow256(16) && s == Id(n)
  {
    Big16(s);
    assert Id(n) == BE(n, 16);
    if n < Pow256(16) { BigBE(n, 16); }
  }

  lemma Slice(data: seq<Byte>, lo: nat, hi: nat, a: nat, b: nat)
    requires lo <= hi <= |data| && a <= b <= hi - lo
    ensures data[lo..hi][a..b] == data[lo + a..lo + b]
  {
    assert forall k :: 0 <= k < b - a ==> data[lo..hi][a..b][k] == data[lo + a..lo + b][k];
  }

  lemma Inside(a: seq<Byte>, b: seq<Byte>, c: seq<Byte>, lo: nat, hi: nat)
    requires lo <= hi <= |b|
    ensures (a + b + c)[|a| + lo..|a| + hi] == b[lo..hi]
  {
    assert forall k :: 0 <= k < hi - lo ==> (a + b + c)[|a| + lo..|a| + hi][k] == b[lo..hi][k];
  }

  lemma Regroup(a: seq<Byte>, b: seq<Byte>, c: seq<Byte>, d: seq<Byte>)
    ensures a + b + (c + d) == a + b + c + d + [] == a + (b + c + d)
  {
  }

  lemma Assoc(a: seq<Byte>, b: seq<Byte>, c: seq<Byte>)
    ensures a + b + c == a + (b + c)
  {
  }

  function Zeros(n: nat): (s: seq<Byte>)
    ensures |s| == n && forall k :: 0 <= k < n ==> s[k] == 0
  {
    seq(n, k => 0)
  }

  /**
   out[at:at+len(b)] = b for a Python bytearray. A slice that reaches past the end is clipped, and
   then the bytearray grows.
   */
  function Overlay(out: seq<Byte>, at: nat, b: seq<Byte>): seq<Byte> {
    if at + |b| <= |out| then out[..at] + b + out[at + |b|..]
    else if at <= |out| then out[..at] + b
    else out + b
  }

  lemma OverlayAt(out: seq<Byte>, at: nat, b: seq<Byte>)
    requires at + |b| <= |out|
    ensures |Overlay(out, at, b)| == |out|
    ensures forall k :: 0 <= k < |out| ==> Overlay(out, at, b)[k] == if at <= k < at + |b| then b[k - at] else out[k]
  {
  }

  lemma OverlayHit(out: seq<Byte>, at: nat, b: seq<Byte>)
    requires at + |b| <= |out|
    ensures |Overlay(out, at, b)| == |out| && Overlay(out, at, b)[at..at + |b|] == b
  {
  }

  lemma OverlayMiss(out: seq<Byte>, at: nat, b: seq<Byte>, lo: nat, hi: nat)
    requires at + |b| <= |out| && lo <= hi <= |out| && (hi <= at || at + |b| <= lo)
    ensures |Overlay(out, at, b)| == |out| && Overlay(out, at, b)[lo..hi] == out[lo..hi]
  {
    OverlayAt(out, at, b);
  }

  /** Filling a buffer from the front. */
  lemma OverlayNext(prefix: seq<Byte>, n: nat, b: seq<Byte>)
    requires |b| <= n
    ensures Overlay(prefix + Zeros(n), |prefix|, b) == prefix + b + Zeros(n - |b|)
  {
    assert (prefix + Zeros(n))[|prefix| + |b|..] == Zeros(n - |b|);
  }
}

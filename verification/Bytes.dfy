// Byte strings and the integers they encode.
module Bytes {

  type byte = x: int | 0 <= x < 256

  function Zeros(len: nat): (s: seq<byte>)
    ensures |s| == len && AllZero(s)
  {
    seq(len, i => 0)
  }

  predicate AllZero(s: seq<byte>) {
    forall i :: 0 <= i < |s| ==> s[i] == 0
  }

  lemma AllZeroIsZeros(s: seq<byte>)
    ensures AllZero(s) <==> s == Zeros(|s|)
  {
  }

  function Pow256(k: nat): (p: nat)
    ensures p >= 1
  {
    if k == 0 then 1 else 256 * Pow256(k - 1)
  }

  /** The big-endian value of `s`. */
  function BE(s: seq<byte>): nat {
    if |s| == 0 then 0 else BE(s[..|s| - 1]) * 256 + s[|s| - 1]
  }

  /** `x` as `len` big-endian bytes; the high part of a too large `x` is cut off. */
  function ToBE(x: nat, len: nat): (s: seq<byte>)
    ensures |s| == len
  {
    if len == 0 then [] else ToBE(x / 256, len - 1) + [x % 256]
  }

  /** The little-endian value of `s`. */
  function LE(s: seq<byte>): nat {
    if |s| == 0 then 0 else s[0] + 256 * LE(s[1..])
  }

  /** `x` as `len` little-endian bytes, truncating. */
  function ToLE(x: nat, len: nat): (s: seq<byte>)
    ensures |s| == len
  {
    if len == 0 then [] else [x % 256] + ToLE(x / 256, len - 1)
  }

  lemma {:induction false} BEBound(s: seq<byte>)
    ensures BE(s) < Pow256(|s|)
  {
    if |s| > 0 {
      BEBound(s[..|s| - 1]);
    }
  }

  lemma {:induction false} BEConcat(a: seq<byte>, b: seq<byte>)
    ensures BE(a + b) == BE(a) * Pow256(|b|) + BE(b)
  {
    if |b| == 0 {
      assert a + b == a;
    } else {
      var front := b[..|b| - 1];
      assert (a + b)[..|a + b| - 1] == a + front;
      BEConcat(a, front);
      ShiftDigits(BE(a), Pow256(|front|));
    }
  }

  lemma ShiftDigits(x: nat, p: nat)
    ensures x * (256 * p) == x * p * 256
  {
  }

  lemma {:induction false} BEToBE(x: nat, len: nat)
    requires x < Pow256(len)
    ensures BE(ToBE(x, len)) == x
  {
    if len > 0 {
      BEToBE(x / 256, len - 1);
      assert ToBE(x, len)[..len - 1] == ToBE(x / 256, len - 1);
    }
  }

  lemma {:induction false} ToBEBE(s: seq<byte>)
    ensures ToBE(BE(s), |s|) == s
  {
    if |s| > 0 {
      ToBEBE(s[..|s| - 1]);
      assert BE(s) / 256 == BE(s[..|s| - 1]) && BE(s) % 256 == s[|s| - 1];
    }
  }

  lemma {:induction false} LEToLE(x: nat, len: nat)
    requires x < Pow256(len)
    ensures LE(ToLE(x, len)) == x
  {
    if len > 0 {
      LEToLE(x / 256, len - 1);
      assert ToLE(x, len)[1..] == ToLE(x / 256, len - 1);
    }
  }

  lemma {:induction false} BEZero(s: seq<byte>)
    ensures BE(s) == 0 <==> AllZero(s)
  {
    if |s| > 0 {
      BEZero(s[..|s| - 1]);
    }
  }

  lemma {:induction false} LEZero(s: seq<byte>)
    ensures LE(s) == 0 <==> AllZero(s)
  {
    if |s| > 0 {
      LEZero(s[1..]);
      assert forall i :: 0 < i < |s| ==> s[i] == s[1..][i - 1];
    }
  }

  /** The order Rust gives byte slices. */
  predicate LexLess(a: seq<byte>, b: seq<byte>) {
    |b| > 0 && (|a| == 0 || a[0] < b[0] || (a[0] == b[0] && LexLess(a[1..], b[1..])))
  }

  lemma BEHead(s: seq<byte>)
    requires |s| > 0
    ensures BE(s) == s[0] * Pow256(|s| - 1) + BE(s[1..])
    ensures BE(s[1..]) < Pow256(|s| - 1)
  {
    assert s == [s[0]] + s[1..];
    BEConcat([s[0]], s[1..]);
    assert BE([s[0]]) == s[0];
    BEBound(s[1..]);
  }

  lemma LeadingDigitDecides(x: int, y: int, w: int, t: int, u: int)
    requires x < y && 0 <= t < w && 0 <= u < w
    ensures x * w + t < y * w + u
  {
    assert (x + 1) * w <= y * w;
  }

  lemma {:induction false} LexIsBE(a: seq<byte>, b: seq<byte>)
    requires |a| == |b|
    ensures LexLess(a, b) <==> BE(a) < BE(b)
  {
    if |a| > 0 {
      BEHead(a);
      BEHead(b);
      var w := Pow256(|a| - 1);
      if a[0] < b[0] {
        LeadingDigitDecides(a[0], b[0], w, BE(a[1..]), BE(b[1..]));
      } else if b[0] < a[0] {
        LeadingDigitDecides(b[0], a[0], w, BE(b[1..]), BE(a[1..]));
      } else {
        LexIsBE(a[1..], b[1..]);
      }
    }
  }

  // Fixed-width integers as the wire formats carry them.

  lemma Pow256Values()
    ensures Pow256(2) == 0x1_0000 && Pow256(4) == 0x1_0000_0000
    ensures Pow256(8) == 0x1_0000_0000_0000_0000
    ensures Pow256(32) == 0x1_0000000000000000_0000000000000000_0000000000000000_0000000000000000
  {
    assert Pow256(4) == 0x1_0000_0000;
    assert Pow256(8) == 0x1_0000_0000_0000_0000;
    assert Pow256(12) == 0x1_00000000_0000_0000_0000_0000;
    assert Pow256(16) == 0x1_0000000000000000_0000_0000_0000_0000;
    assert Pow256(20) == 0x1_00000000_0000000000000000_0000_0000_0000_0000;
    assert Pow256(24) == 0x1_0000000000000000_0000000000000000_0000_0000_0000_0000;
    assert Pow256(28) == 0x1_00000000_0000000000000000_0000000000000000_0000_0000_0000_0000;
  }

  /** `s` with `piece` written over it from `off` on. */
  function Splice(s: seq<byte>, off: nat, piece: seq<byte>): (t: seq<byte>)
    requires off + |piece| <= |s|
    ensures |t| == |s|
  {
    s[..off] + piece + s[off + |piece|..]
  }

  /** `dst[off..off + |piece|].copy_from_slice(piece)`. */
  method CopyInto(dst: array<byte>, off: nat, piece: seq<byte>)
    requires off + |piece| <= dst.Length
    modifies dst
    ensures dst[..] == Splice(old(dst[..]), off, piece)
  {
    for i := 0 to |piece|
      invariant forall k :: 0 <= k < i ==> dst[off + k] == piece[k]
      invariant forall k :: 0 <= k < dst.Length && !(off <= k < off + i) ==> dst[k] == old(dst[k])
    {
      dst[off + i] := piece[i];
    }
  }

  /** The same, for a buffer filled from the front: all the caller keeps is what is filled so far. */
  method FillNext(dst: array<byte>, ghost filled: seq<byte>, off: nat, piece: seq<byte>)
    requires off == |filled| && off + |piece| <= dst.Length && dst[..off] == filled
    modifies dst
    ensures dst[..off + |piece|] == filled + piece
  {
    CopyInto(dst, off, piece);
  }
}

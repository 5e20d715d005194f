/** Bytes, fixed-width unsigned integers and their little- and big-endian encodings. */
module Bytes {
  type byte = b: int | 0 <= b < 256
  type u8 = byte
  type u16 = v: int | 0 <= v < 0x1_0000
  type u32 = v: int | 0 <= v < 0x1_0000_0000
  type u64 = v: int | 0 <= v < 0x1_0000_0000_0000_0000

  const TWO_64 := 0x1_0000_0000_0000_0000

  function Pow256(n: nat): (p: nat)
    ensures p > 0
  {
    if n == 0 then 1 else 256 * Pow256(n - 1)
  }

  function Zeros(n: nat): (s: seq<byte>)
    ensures |s| == n
    ensures forall i :: 0 <= i < n ==> s[i] == 0
  {
    seq(n, i => 0)
  }

  /** The n low bytes of v, least significant first. */
  function LE(v: nat, n: nat): (s: seq<byte>)
    ensures |s| == n
    decreases n
  {
    if n == 0 then [] else [v % 256] + LE(v / 256, n - 1)
  }

  function FromLE(s: seq<byte>): nat
  {
    if s == [] then 0 else s[0] + 256 * FromLE(s[1..])
  }

  /** The n low bytes of v, most significant first. */
  function BE(v: nat, n: nat): (s: seq<byte>)
    ensures |s| == n
    decreases n
  {
    if n == 0 then [] else BE(v / 256, n - 1) + [v % 256]
  }

  function FromBE(s: seq<byte>): nat
  {
    if s == [] then 0 else 256 * FromBE(s[..|s| - 1]) + s[|s| - 1]
  }

  lemma {:induction false} DecodeLE(v: nat, n: nat)
    requires v < Pow256(n)
    ensures FromLE(LE(v, n)) == v
    decreases n
  {
    if n == 0 {
    } else {
      DecodeLE(v / 256, n - 1);
      assert LE(v, n)[1..] == LE(v / 256, n - 1);
    }
  }

  lemma {:induction false} DecodeBE(v: nat, n: nat)
    requires v < Pow256(n)
    ensures FromBE(BE(v, n)) == v
    decreases n
  {
    if n == 0 {
    } else {
      DecodeBE(v / 256, n - 1);
      assert BE(v, n)[..n - 1] == BE(v / 256, n - 1);
    }
  }

  lemma {:induction false} EncodeBE(s: seq<byte>)
    ensures FromBE(s) < Pow256(|s|)
    ensures BE(FromBE(s), |s|) == s
  {
    if s == [] {
    } else {
      EncodeBE(s[..|s| - 1]);
    }
  }

  lemma {:induction false} BoundLE(s: seq<byte>)
    ensures FromLE(s) < Pow256(|s|)
  {
    if s == [] {
    } else {
      BoundLE(s[1..]);
    }
  }

  lemma {:induction false} AppendLE(a: seq<byte>, b: seq<byte>)
    ensures FromLE(a + b) == FromLE(a) + Pow256(|a|) * FromLE(b)
  {
    if a == [] {
      assert a + b == b;
    } else {
      AppendLE(a[1..], b);
      assert (a + b)[1..] == a[1..] + b;
      assert Pow256(|a|) * FromLE(b) == 256 * (Pow256(|a| - 1) * FromLE(b));
    }
  }

  lemma FourBytesLE(a: byte, b: byte, c: byte, d: byte)
    ensures FromLE([a, b, c, d]) == a + 0x100 * b + 0x1_0000 * c + 0x100_0000 * d
  {
    var s: seq<byte> := [a, b, c, d];
    assert s[1..] == [b, c, d] && s[1..][1..] == [c, d] && s[1..][1..][1..] == [d];
    assert FromLE([d]) == d;
    assert FromLE([c, d]) == c + 0x100 * FromLE([d]);
    assert FromLE([b, c, d]) == b + 0x100 * FromLE([c, d]);
  }

  lemma {:induction false} ZerosLE(n: nat)
    ensures FromLE(Zeros(n)) == 0 && LE(0, n) == Zeros(n)
  {
    if n == 0 {
    } else {
      assert Zeros(n)[1..] == Zeros(n - 1);
      ZerosLE(n - 1);
    }
  }

  lemma WidthBounds()
    ensures Pow256(1) == 0x100
    ensures Pow256(2) == 0x1_0000
    ensures Pow256(4) == 0x1_0000_0000
    ensures Pow256(8) == TWO_64
  {
  }

  /** Values that fit in n bytes are determined by their encodings. */
  lemma InjectiveLE(a: nat, b: nat, n: nat)
    requires a < Pow256(n) && b < Pow256(n)
    requires LE(a, n) == LE(b, n)
    ensures a == b
  {
    DecodeLE(a, n);
    DecodeLE(b, n);
  }

  /** s with x written over it from k on. */
  function Overwritten(s: seq<byte>, k: nat, x: seq<byte>): (t: seq<byte>)
    requires k + |x| <= |s|
    ensures |t| == |s|
  {
    s[..k] + x + s[k + |x|..]
  }

  /** Writing on where the last write ended is one longer write. */
  lemma OverwrittenTwice(s: seq<byte>, k: nat, x: seq<byte>, y: seq<byte>)
    requires k + |x| + |y| <= |s|
    ensures Overwritten(Overwritten(s, k, x), k + |x|, y) == Overwritten(s, k, x + y)
  {
  }

  lemma OverwrittenFront(s: seq<byte>, x: seq<byte>)
    requires |x| <= |s|
    ensures Overwritten(s, 0, x) == x + s[|x|..] && Overwritten(s, 0, x)[..|x|] == x
  {
  }

  lemma OverwrittenBefore(s: seq<byte>, k: nat, x: seq<byte>, n: nat)
    requires k + |x| <= |s| && n <= k
    ensures Overwritten(s, k, x)[..n] == s[..n]
  {
  }

  /** memcpy and memmove into a buffer: everything else stays. */
  method CopyInto(dst: array<byte>, offset: nat, src: seq<byte>)
    requires offset + |src| <= dst.Length
    modifies dst
    ensures dst[..] == old(dst[..offset]) + src + old(dst[offset + |src|..])
    ensures dst[..] == Overwritten(old(dst[..]), offset, src)
  {
    forall i | 0 <= i < |src| {
      dst[offset + i] := src[i];
    }
  }

  method CopyWhole(dst: array<byte>, src: seq<byte>)
    requires dst.Length == |src|
    modifies dst
    ensures dst[..] == src
  {
    CopyInto(dst, 0, src);
  }

  method PutByte(dst: array<byte>, offset: nat, b: byte)
    requires offset < dst.Length
    modifies dst
    ensures dst[..] == Overwritten(old(dst[..]), offset, [b])
  {
    dst[offset] := b;
  }
}

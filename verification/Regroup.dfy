/** Bit strings and the regrouping loop convert_bits of src/import/cashaddr.c. */
module Regroup {
  import opened Bytes
  import opened Word64

  type bits = seq<bool>

  /** The n low bits of v, most significant first. */
  function BitsOf(v: nat, n: nat): (b: bits)
    ensures |b| == n
    decreases n
  {
    if n == 0 then [] else BitsOf(v / 2, n - 1) + [v % 2 == 1]
  }

  function Value(b: bits): nat {
    if b == [] then 0 else 2 * Value(b[..|b| - 1]) + (if b[|b| - 1] then 1 else 0)
  }

  function Falses(n: nat): (b: bits)
    ensures |b| == n
  {
    seq(n, i => false)
  }

  predicate Below(xs: seq<byte>, w: nat) {
    forall i :: 0 <= i < |xs| ==> xs[i] < Pow2(w)
  }

  /** All groups of xs, w bits each, in a row. */
  function Unpack(xs: seq<byte>, w: nat): (b: bits)
    ensures |b| == w * |xs|
  {
    if xs == [] then [] else Unpack(xs[..|xs| - 1], w) + BitsOf(xs[|xs| - 1], w)
  }

  /** n groups of w bits as numbers. */
  function Pack(b: bits, w: nat, n: nat): (xs: seq<byte>)
    requires w <= 8 && |b| == w * n
    ensures |xs| == n
    decreases n
  {
    if n == 0 then []
    else
      ByteValue(b[w * (n - 1)..]);
      Pack(b[..w * (n - 1)], w, n - 1) + [Value(b[w * (n - 1)..])]
  }

  lemma {:induction false} ValueBound(b: bits)
    ensures Value(b) < Pow2(|b|)
  {
    if b == [] {
    } else {
      ValueBound(b[..|b| - 1]);
    }
  }

  lemma ByteValue(b: bits)
    requires |b| <= 8
    ensures Value(b) < 256
  {
    ValueBound(b);
    assert Pow2(8) == 256;
    if |b| < 8 { Pow2Monotone(|b|, 8); }
  }

  lemma {:induction false} BitsOfValue(b: bits)
    ensures BitsOf(Value(b), |b|) == b
  {
    if b == [] {
    } else {
      BitsOfValue(b[..|b| - 1]);
    }
  }

  lemma {:induction false} ValueOfBits(v: nat, n: nat)
    ensures Value(BitsOf(v, n)) == Low(v, n)
    decreases n
  {
    if n == 0 {
    } else {
      ValueOfBits(v / 2, n - 1);
      assert BitsOf(v, n)[..n - 1] == BitsOf(v / 2, n - 1);
    }
  }

  lemma LowOfSmall(v: nat, n: nat)
    requires v < Pow2(n)
    ensures Low(v, n) == v
  {
    HighLowDivMod(v, n);
  }

  lemma PackStep(b: bits, g: bits, w: nat, n: nat)
    requires w <= 8 && |b| == w * n && |g| == w
    ensures |b + g| == w * (n + 1) && Value(g) < 256
    ensures Pack(b + g, w, n + 1) == Pack(b, w, n) + [Value(g)]
  {
    ByteValue(g);
    var k := w * n;
    assert w * (n + 1) == k + w;
    assert (b + g)[..k] == b && (b + g)[k..] == g;
  }

  /** Packing undoes unpacking on groups that fit. */
  lemma {:induction false} PackUnpack(xs: seq<byte>, w: nat)
    requires w <= 8 && Below(xs, w)
    ensures Pack(Unpack(xs, w), w, |xs|) == xs
  {
    hide Pack, Value, BitsOf, Low;
    if xs == [] {
      PackNone(w);
    } else {
      var n := |xs| - 1;
      PackUnpack(xs[..n], w);
      PackStep(Unpack(xs[..n], w), BitsOf(xs[n], w), w, n);
      ValueOfBits(xs[n], w);
      LowOfSmall(xs[n], w);
    }
  }

  lemma PackNone(w: nat)
    requires w <= 8
    ensures Pack([], w, 0) == []
  {
  }

  lemma UnpackStep(xs: seq<byte>, x: byte, w: nat)
    ensures Unpack(xs + [x], w) == Unpack(xs, w) + BitsOf(x, w)
  {
    hide BitsOf;
    assert (xs + [x])[..|xs|] == xs;
  }

  lemma {:induction false} UnpackAppend(xs: seq<byte>, ys: seq<byte>, w: nat)
    ensures Unpack(xs + ys, w) == Unpack(xs, w) + Unpack(ys, w)
    decreases |ys|
  {
    hide BitsOf;
    if ys == [] {
      assert xs + ys == xs;
    } else {
      var n := |ys| - 1;
      UnpackAppend(xs, ys[..n], w);
      assert (xs + ys)[..|xs| + n] == xs + ys[..n];
    }
  }

  lemma UnpackOne(x: byte, w: nat)
    ensures Unpack([x], w) == BitsOf(x, w)
  {
    hide BitsOf;
    assert [x][..0] == [];
  }

  lemma BelowStep(xs: seq<byte>, x: byte, w: nat)
    requires Below(xs, w) && x < Pow2(w)
    ensures Below(xs + [x], w)
  {
    hide Pow2;
  }

  /** Unpacking undoes packing. */
  lemma {:induction false} UnpackPack(b: bits, w: nat, n: nat)
    requires w <= 8 && |b| == w * n
    ensures Unpack(Pack(b, w, n), w) == b && Below(Pack(b, w, n), w)
    decreases n
  {
    hide Pack, Value, BitsOf, Unpack, Below, Pow2;
    if n == 0 {
      NothingPacked(b, w);
    } else {
      var k := w * (n - 1);
      assert w * n == k + w;
      var front, last := b[..k], b[k..];
      UnpackPack(front, w, n - 1);
      ByteValue(last);
      BitsOfValue(last);
      ValueBound(last);
      PackStep(front, last, w, n - 1);
      assert front + last == b;
      var ys, y := Pack(front, w, n - 1), Value(last);
      UnpackStep(ys, y, w);
      BelowStep(ys, y, w);
    }
  }

  lemma NothingPacked(b: bits, w: nat)
    requires w <= 8 && |b| == w * 0
    ensures Unpack(Pack(b, w, 0), w) == b && Below(Pack(b, w, 0), w)
  {
  }

  /** The upper a of a + b bits are the bits of the shifted number. */
  lemma {:induction false} BitsSplit(v: nat, a: nat, b: nat)
    ensures BitsOf(v, a + b) == BitsOf(High(v, b), a) + BitsOf(v, b)
    decreases b
  {
    if b == 0 {
    } else {
      BitsSplit(v / 2, a, b - 1);
    }
  }

  lemma {:induction false} BitsOfLow(v: nat, m: nat, n: nat)
    requires n <= m
    ensures BitsOf(Low(v, m), n) == BitsOf(v, n)
    decreases n
  {
    if n == 0 {
    } else {
      BitsOfLow(v / 2, m - 1, n - 1);
    }
  }

  lemma {:induction false} BitsOfZero(v: nat, n: nat)
    ensures Low(v, n) == 0 <==> BitsOf(v, n) == Falses(n)
    decreases n
  {
    if n == 0 {
    } else {
      BitsOfZero(v / 2, n - 1);
      assert Falses(n) == Falses(n - 1) + [false];
      assert BitsOf(v, n)[..n - 1] == BitsOf(v / 2, n - 1) && BitsOf(v, n)[n - 1] == (v % 2 == 1);
    }
  }

  const TWO_32: nat := 0x1_0000_0000

  /** (val << k) in 32 bits: the k top bits are lost. */
  function ShiftLeft32(val: u32, k: nat): u32 {
    val * Pow2(k) % TWO_32
  }

  lemma ShiftLeft32IsLow(val: u32, k: nat)
    requires k <= 32
    ensures ShiftLeft32(val, k) == Low(val, 32 - k) * Pow2(k)
    ensures Low(val, 32 - k) * Pow2(k) + Pow2(k) <= TWO_32
  {
    hide Pow2, High, Low;
    HighLow(val, 32 - k);
    Pow2Sum(32 - k, k);
    Pow2Word();
    var q, r, p := High(val, 32 - k), Low(val, 32 - k), Pow2(k);
    MulBelow(r, Pow2(32 - k), p);
    ShiftProduct(q, Pow2(32 - k), r, p);
    DivModUnique(q, r * p, TWO_32);
  }

  lemma ShiftProduct(q: nat, m: nat, r: nat, p: nat)
    ensures (q * m + r) * p == q * (m * p) + r * p
  {
    Distribute(q * m, r, p);
  }

  /** Shifting a group in appends its bits, as long as all bits still fit in 32. */
  lemma ShiftIn(val: u32, n: nat, x: byte, k: nat)
    requires n + k <= 32 && x < Pow2(k)
    ensures ShiftLeft32(val, k) + x < TWO_32
    ensures BitsOf(ShiftLeft32(val, k) + x, n + k) == BitsOf(val, n) + BitsOf(x, k)
  {
    hide High, Low, Pow2, ShiftLeft32;
    ShiftLeft32IsLow(val, k);
    var l := Low(val, 32 - k);
    var v := l * Pow2(k) + x;
    BitsSplit(v, n, k);
    HighLowDivMod(v, k);
    DivModUnique(l, x, Pow2(k));
    BitsOfLow(v, k, k);
    BitsOfLow(val, 32 - k, n);
  }

  /** Cutting the top group off. */
  lemma ShiftOut(val: u32, n: nat, w: nat)
    ensures BitsOf(val, w + n) == BitsOf(Low(High(val, n), w), w) + BitsOf(val, n)
  {
    BitsSplit(val, w, n);
    BitsOfLow(High(val, n), w, w);
  }

  /** Filling up with zero bits. */
  lemma PadOut(val: u32, n: nat, w: nat)
    requires n <= w <= 32
    ensures BitsOf(Low(ShiftLeft32(val, w - n), w), w) == BitsOf(val, n) + Falses(w - n)
  {
    hide Pow2, High, Low, ShiftLeft32, BitsOf;
    var k := w - n;
    ShiftLeft32IsLow(val, k);
    var l := Low(val, 32 - k);
    var v := l * Pow2(k) + 0;
    BitsOfLow(v, w, w);
    BitsSplit(v, n, k);
    HighLowDivMod(v, k);
    DivModUnique(l, 0, Pow2(k));
    BitsOfZero(v, k);
    BitsOfLow(val, 32 - k, n);
  }

  /** How many groups of w bits it takes to hold n bits. */
  function GroupCount(n: nat, w: nat): (c: nat)
    requires 1 <= w
    ensures w * c >= n && (c > 0 ==> w * (c - 1) < n)
  {
    CeilingDivision(n, w);
    (n + w - 1) / w
  }

  lemma CeilingDivision(n: nat, w: nat)
    requires 1 <= w
    ensures var c := (n + w - 1) / w; w * c >= n && w * c <= n + w - 1
  {
    var x := n + w - 1;
    assert x == x / w * w + x % w;
  }

  /** Regrouping with padding: the same bits, zero-filled to a whole number of groups. */
  function Regrouped(xs: seq<byte>, inbits: nat, outbits: nat): (ys: seq<byte>)
    requires 1 <= outbits <= 8
  {
    var n := GroupCount(inbits * |xs|, outbits);
    Pack(Unpack(xs, inbits) + Falses(outbits * n - inbits * |xs|), outbits, n)
  }

  /** The loop invariant: bits read are bits written plus the pending ones. */
  ghost predicate Grouped(xs: seq<byte>, inbits: nat, ys: seq<byte>, outbits: nat, pending: bits) {
    Unpack(xs, inbits) == Unpack(ys, outbits) + pending && Below(ys, outbits)
  }

  lemma ReadGroup(xs: seq<byte>, i: nat, inbits: nat, ys: seq<byte>, outbits: nat, pending: bits)
    requires i < |xs| && Grouped(xs[..i], inbits, ys, outbits, pending)
    ensures Grouped(xs[..i + 1], inbits, ys, outbits, pending + BitsOf(xs[i], inbits))
  {
    hide BitsOf;
    assert xs[..i + 1][..i] == xs[..i];
  }

  lemma WriteGroup(xs: seq<byte>, inbits: nat, ys: seq<byte>, outbits: nat, y: byte, pending: bits)
    requires Grouped(xs, inbits, ys, outbits, BitsOf(y, outbits) + pending) && y < Pow2(outbits)
    ensures Grouped(xs, inbits, ys + [y], outbits, pending)
  {
    hide BitsOf, Pow2;
    assert (ys + [y])[..|ys|] == ys;
  }

  /** A group is pending, so the output has room for it. */
  lemma RoomLeft(xs: seq<byte>, i: nat, inbits: nat, ys: seq<byte>, outbits: nat, pending: bits)
    requires i <= |xs| && Grouped(xs[..i], inbits, ys, outbits, pending) && |pending| >= outbits >= 1
    ensures |ys| < WholeGroups(inbits, |xs|, outbits)
  {
    hide Unpack, Pow2;
    RoomNumbers(inbits, i, |xs|, outbits, |ys|, |pending|);
  }

  lemma RoomNumbers(inbits: nat, i: nat, n: nat, outbits: nat, k: nat, pending: nat)
    requires i <= n && inbits * i == outbits * k + pending && pending >= outbits >= 1
    ensures k < inbits * n / outbits
  {
    MultipleFar(n - i, inbits);
    assert (n - i) * inbits == inbits * n - inbits * i;
    assert outbits * (k + 1) == outbits * k + outbits;
    FitsCount(inbits * n, outbits, k + 1);
  }

  lemma FitsCount(total: nat, w: nat, k: nat)
    requires w >= 1 && w * k <= total
    ensures k <= total / w
  {
    var d := k - total / w;
    assert total == total / w * w + total % w;
    assert d * w == k * w - total / w * w;
    MultipleFar(d, w);
  }

  lemma CountUnique(total: nat, w: nat, k: nat)
    requires w >= 1 && total <= w * k < total + w
    ensures k == GroupCount(total, w)
  {
    var d := k - GroupCount(total, w);
    CeilingDivision(total, w);
    assert d * w == w * k - w * GroupCount(total, w);
    MultipleFar(d, w);
  }

  /** How many groups fill up while n groups are read, and how many there are once padded. */
  function WholeGroups(inbits: nat, n: nat, outbits: nat): nat
    requires outbits >= 1
  {
    inbits * n / outbits
  }

  function PaddedGroups(inbits: nat, n: nat, outbits: nat): nat
    requires outbits >= 1
  {
    GroupCount(inbits * n, outbits)
  }

  lemma QuotientAtMost(total: nat, w: nat, g: nat)
    requires w >= 1 && total <= g * w
    ensures total / w <= g
  {
    var q := total / w;
    assert total == q * w + total % w;
    Distribute(q - g, g, w);
    MultipleFar(q - g, w);
  }

  lemma WholeBelowPadded(inbits: nat, n: nat, outbits: nat)
    requires outbits >= 1
    ensures WholeGroups(inbits, n, outbits) <= PaddedGroups(inbits, n, outbits)
  {
    QuotientAtMost(inbits * n, outbits, GroupCount(inbits * n, outbits));
  }

  /** The inner loop of convert_bits: writes whole groups until fewer than outbits bits are pending. */
  method Drain(out: array<byte>, outlen: nat, at: nat, outbits: nat, ghost xs: seq<byte>, ghost i: nat,
               ghost inbits: nat, val: u32, pending: nat) returns (n: nat, newlen: nat)
    requires i <= |xs| && 1 <= outbits <= 8 && pending <= 16 && outlen <= at <= out.Length
    requires outlen + WholeGroups(inbits, |xs|, outbits) <= out.Length
    requires Grouped(xs[..i], inbits, out[outlen..at], outbits, BitsOf(val, pending))
    modifies out
    ensures n < outbits && at <= newlen <= out.Length
    ensures Grouped(xs[..i], inbits, out[outlen..newlen], outbits, BitsOf(val, n))
    ensures out[..at] == old(out[..at]) && out[newlen..] == old(out[newlen..])
  {
    hide Pow2, Low, High, BitsOf, Grouped, WholeGroups;
    n, newlen := pending, at;
    while n >= outbits
      invariant n <= 16 && at <= newlen <= out.Length
      invariant Grouped(xs[..i], inbits, out[outlen..newlen], outbits, BitsOf(val, n))
      invariant out[..at] == old(out[..at]) && out[newlen..] == old(out[newlen..])
    {
      ghost var ys := out[outlen..newlen];
      RoomLeft(xs, i, inbits, ys, outbits, BitsOf(val, n));
      n := n - outbits;
      ShiftOut(val, n, outbits);
      var y := GroupByte(High(val, n), outbits);
      WriteGroup(xs[..i], inbits, ys, outbits, y, BitsOf(val, n));
      ghost var was := out[..];
      out[newlen] := y;
      newlen := newlen + 1;
      assert out[..] == was[newlen - 1 := y];
      assert out[outlen..newlen] == ys + [y];
      assert out[newlen..] == was[newlen - 1..][1..] == old(out[newlen - 1..])[1..];
    }
  }

  /** The padding branch at the end of convert_bits. */
  method WritePadding(out: array<byte>, outlen: nat, at: nat, outbits: nat, ghost xs: seq<byte>, ghost inbits: nat,
                      val: u32, n: nat) returns (newlen: nat)
    requires n < outbits <= 8 && outlen <= at <= out.Length
    requires outlen + PaddedGroups(inbits, |xs|, outbits) <= out.Length
    requires Grouped(xs, inbits, out[outlen..at], outbits, BitsOf(val, n))
    modifies out
    ensures at <= newlen <= out.Length && out[outlen..newlen] == Regrouped(xs, inbits, outbits)
    ensures out[..at] == old(out[..at]) && out[newlen..] == old(out[newlen..])
  {
    hide Pow2, Low, ShiftLeft32, BitsOf, Grouped, Regrouped, PaddedGroups;
    ghost var ys := out[outlen..at];
    newlen := at;
    PaddedRoom(xs, inbits, ys, outbits, BitsOf(val, n));
    if n > 0 {
      PadOut(val, n, outbits);
      var y := GroupByte(ShiftLeft32(val, outbits - n), outbits);
      PaddedResult(xs, inbits, ys, outbits, BitsOf(val, n), y);
      out[at] := y;
      newlen := at + 1;
      assert out[outlen..newlen] == ys + [y];
    } else {
      ExactResult(xs, inbits, ys, outbits, BitsOf(val, n));
    }
  }

  /** convert_bits, writing from outlen on. ok is the C return value; rest are the bits left unwritten. */
  method ConvertBits(out: array<byte>, outlen: nat, outbits: nat, xs: seq<byte>, inbits: nat, pad: bool)
    returns (ok: int, newlen: nat, ghost rest: bits)
    requires 1 <= inbits <= 8 && 1 <= outbits <= 8 && Below(xs, inbits)
    requires outlen + (if pad then PaddedGroups(inbits, |xs|, outbits) else WholeGroups(inbits, |xs|, outbits)) <= out.Length
    modifies out
    ensures outlen <= newlen <= out.Length
    ensures out[..outlen] == old(out[..outlen]) && out[newlen..] == old(out[newlen..])
    ensures pad ==> ok == 1 && out[outlen..newlen] == Regrouped(xs, inbits, outbits)
    ensures !pad ==> Grouped(xs, inbits, out[outlen..newlen], outbits, rest) && |rest| < outbits
    ensures !pad ==> ok == if rest == Falses(|rest|) && |rest| < inbits then 1 else 0
  {
    hide Pow2, Low, High, ShiftLeft32, BitsOf, Grouped, Regrouped, WholeGroups, PaddedGroups;
    var val: u32 := 0;
    var n: nat := 0;
    newlen := outlen;
    var i := 0;
    NothingRead(inbits, outbits, val);
    WholeBelowPadded(inbits, |xs|, outbits);
    assert out[outlen..newlen] == [];
    while i < |xs|
      invariant 0 <= i <= |xs| && n < outbits && outlen <= newlen <= out.Length
      invariant Grouped(xs[..i], inbits, out[outlen..newlen], outbits, BitsOf(val, n))
      invariant out[..outlen] == old(out[..outlen]) && out[newlen..] == old(out[newlen..])
    {
      ReadGroup(xs, i, inbits, out[outlen..newlen], outbits, BitsOf(val, n));
      ShiftIn(val, n, xs[i], inbits);
      val := ShiftLeft32(val, inbits) + xs[i];
      i := i + 1;
      n, newlen := Drain(out, outlen, newlen, outbits, xs, i, inbits, val, n + inbits);
    }
    assert xs[..i] == xs;
    rest := BitsOf(val, n);
    if pad {
      newlen := WritePadding(out, outlen, newlen, outbits, xs, inbits, val, n);
    } else {
      LeftoverZero(val, n, outbits);
      var y := GroupByte(ShiftLeft32(val, outbits - n), outbits);
      if y != 0 || n >= inbits {
        return 0, newlen, rest;
      }
    }
    ok := 1;
  }

  /** The C test on the shifted leftover asks whether any unwritten bit is set. */
  lemma LeftoverZero(val: u32, n: nat, w: nat)
    requires n <= w <= 32
    ensures Low(ShiftLeft32(val, w - n), w) == 0 <==> BitsOf(val, n) == Falses(n)
  {
    hide ShiftLeft32, Low, BitsOf;
    var v := ShiftLeft32(val, w - n);
    PadOut(val, n, w);
    BitsOfLow(v, w, w);
    BitsOfZero(v, w);
    FalsesSplit(BitsOf(val, n), w - n);
  }

  lemma NothingRead(inbits: nat, outbits: nat, val: nat)
    ensures Grouped([], inbits, [], outbits, BitsOf(val, 0))
  {
  }

  /** The low w bits of v, w at most 8: what "& maxv" keeps. */
  function GroupByte(v: nat, w: nat): (y: byte)
    requires w <= 8
    ensures y == Low(v, w) < Pow2(w)
  {
    HighLow(v, w);
    Pow2Monotone(w, 8);
    assert Pow2(8) == 256;
    Low(v, w)
  }

  lemma FalsesSplit(b: bits, k: nat)
    ensures b + Falses(k) == Falses(|b| + k) <==> b == Falses(|b|)
  {
    if b + Falses(k) == Falses(|b| + k) {
      assert b == (b + Falses(k))[..|b|];
    }
  }

  lemma PaddedRoom(xs: seq<byte>, inbits: nat, ys: seq<byte>, outbits: nat, rest: bits)
    requires Grouped(xs, inbits, ys, outbits, rest) && |rest| < outbits
    ensures |rest| > 0 ==> |ys| < PaddedGroups(inbits, |xs|, outbits)
  {
    if |rest| > 0 {
      assert outbits * (|ys| + 1) == outbits * |ys| + outbits;
      CountUnique(inbits * |xs|, outbits, |ys| + 1);
    }
  }

  lemma PaddedResult(xs: seq<byte>, inbits: nat, ys: seq<byte>, outbits: nat, rest: bits, y: byte)
    requires Grouped(xs, inbits, ys, outbits, rest) && 0 < |rest| < outbits <= 8 && y < Pow2(outbits)
    requires BitsOf(y, outbits) == rest + Falses(outbits - |rest|)
    ensures ys + [y] == Regrouped(xs, inbits, outbits)
  {
    hide BitsOf, Pow2, Pack;
    assert outbits * (|ys| + 1) == outbits * |ys| + outbits;
    CountUnique(inbits * |xs|, outbits, |ys| + 1);
    assert (ys + [y])[..|ys|] == ys;
    PackUnpack(ys + [y], outbits);
    assert Unpack(ys, outbits) + BitsOf(y, outbits) == Unpack(xs, inbits) + Falses(outbits - |rest|);
  }

  lemma ExactResult(xs: seq<byte>, inbits: nat, ys: seq<byte>, outbits: nat, rest: bits)
    requires Grouped(xs, inbits, ys, outbits, rest) && rest == [] && 1 <= outbits <= 8
    ensures ys == Regrouped(xs, inbits, outbits)
  {
    hide Pack;
    CountUnique(inbits * |xs|, outbits, |ys|);
    PackUnpack(ys, outbits);
    assert Unpack(xs, inbits) + Falses(0) == Unpack(ys, outbits);
  }

  /** Bytes regrouped to symbols: ceil(8n/5) of them, all below 32, holding the bytes' bits and then zeros. */
  lemma SymbolsOfBytes(xs: seq<byte>)
    ensures var ys := Regrouped(xs, 8, 5);
            5 * |ys| - 5 < 8 * |xs| <= 5 * |ys| && (forall i :: 0 <= i < |ys| ==> ys[i] < 32) &&
            Unpack(ys, 5) == Unpack(xs, 8) + Falses(5 * |ys| - 8 * |xs|)
  {
    hide Pack;
    var n := GroupCount(8 * |xs|, 5);
    UnpackPack(Unpack(xs, 8) + Falses(5 * n - 8 * |xs|), 5, n);
    assert Pow2(5) == 32;
  }

  lemma BytesFitEight(xs: seq<byte>)
    ensures Below(xs, 8)
  {
    assert Pow2(8) == 256;
  }

  lemma UnpackInjective(xs: seq<byte>, ys: seq<byte>)
    requires Unpack(xs, 8) == Unpack(ys, 8)
    ensures xs == ys
  {
    hide Pack;
    BytesFitEight(xs);
    BytesFitEight(ys);
    PackUnpack(xs, 8);
    PackUnpack(ys, 8);
  }

  /** Regrouping back without padding succeeds and returns the original bytes. */
  lemma RegroupRoundTrip(xs: seq<byte>, zs: seq<byte>, rest: bits)
    requires Grouped(Regrouped(xs, 8, 5), 5, zs, 8, rest) && |rest| < 8
    ensures zs == xs && rest == Falses(|rest|) && |rest| < 5
  {
    hide Regrouped;
    SymbolsOfBytes(xs);
    var u, k := Unpack(Regrouped(xs, 8, 5), 5), 8 * |xs|;
    assert |zs| == |xs|;
    assert u[..k] == Unpack(xs, 8) && u[..k] == Unpack(zs, 8);
    assert u[k..] == Falses(|rest|) && u[k..] == rest;
    UnpackInjective(xs, zs);
  }

  /** convert_bits from 8 to 5 with padding, then from 5 to 8 without: 1 and the original bytes. */
  method ConvertThereAndBack(xs: seq<byte>) returns (ok: int, zs: seq<byte>)
    ensures ok == 1 && zs == xs
  {
    hide Regrouped, Grouped, Below, Falses, WholeGroups, PaddedGroups;
    BytesFitEight(xs);
    var symbols := new byte[PaddedGroups(8, |xs|, 5)];
    var _, n, _ := ConvertBits(symbols, 0, 5, xs, 8, true);
    var ys := symbols[..n];
    SymbolsBelow(xs);
    var back := new byte[WholeGroups(5, n, 8)];
    var m; ghost var rest;
    ok, m, rest := ConvertBits(back, 0, 8, ys, 5, false);
    zs := back[..m];
    RegroupRoundTrip(xs, zs, rest);
  }

  lemma SymbolsBelow(xs: seq<byte>)
    ensures Below(Regrouped(xs, 8, 5), 5)
  {
    hide Regrouped;
    SymbolsOfBytes(xs);
    assert Pow2(5) == 32;
  }

  lemma RegroupedInjective(xs: seq<byte>, ys: seq<byte>)
    requires Regrouped(xs, 8, 5) == Regrouped(ys, 8, 5) && |xs| == |ys|
    ensures xs == ys
  {
    hide Regrouped;
    SymbolsOfBytes(xs);
    SymbolsOfBytes(ys);
    var u, k := Unpack(Regrouped(xs, 8, 5), 5), 8 * |xs|;
    assert u[..k] == Unpack(xs, 8) && u[..k] == Unpack(ys, 8);
    UnpackInjective(xs, ys);
  }
}

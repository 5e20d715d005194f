/** An address published with the app's own tests, computed by the model. */
module AddressVector {
  import opened Bytes
  import opened Word64
  import opened Regroup
  import opened BitVectors
  import opened Checksum
  import opened ChecksumBits
  import opened Cashaddr
  import opened Address
  import opened FieldTables

  /** A script hash. */
  const HASH: seq<byte> := [
    243, 128, 49, 246, 28, 162, 61, 112, 132, 79, 99, 164, 119, 208, 127, 11,
    44, 45, 236, 171, 144, 124, 46, 9, 110, 84, 139, 14, 8, 114, 28, 121]

  // ----- regrouping by numbers

  function NumberIn(xs: seq<byte>, w: nat): nat {
    if xs == [] then 0 else NumberIn(xs[..|xs| - 1], w) * Pow2(w) + xs[|xs| - 1]
  }

  /** Groups in a row are the bits of one number. */
  lemma {:induction false} UnpackIsBits(xs: seq<byte>, w: nat)
    requires Below(xs, w)
    ensures Unpack(xs, w) == BitsOf(NumberIn(xs, w), w * |xs|)
  {
    hide BitsOf, Pow2, High, Low;
    if xs == [] {
      NoBits(w);
    } else {
      var n := |xs| - 1;
      var front, x := NumberIn(xs[..n], w), xs[n];
      var v := front * Pow2(w) + x;
      UnpackIsBits(xs[..n], w);
      assert w * |xs| == w * n + w;
      BitsSplit(v, w * n, w);
      HighLowDivMod(v, w);
      DivModUnique(front, x, Pow2(w));
      BitsOfLow(v, w, w);
    }
  }

  lemma NoBits(w: nat)
    ensures BitsOf(0, w * 0) == []
  {
  }

  lemma Prefixes(xs: seq<byte>, w: nat, n: nat)
    requires n < |xs|
    ensures NumberIn(xs[..n + 1], w) == NumberIn(xs[..n], w) * Pow2(w) + xs[n]
  {
    assert xs[..n + 1][..n] == xs[..n];
  }

  function ThreeByteNumber(a: nat, b: nat, c: nat): nat {
    0x1_0000 * a + 0x100 * b + c
  }

  function FiveByteNumber(a: nat, b: nat, c: nat, d: nat, e: nat): nat {
    0x1_0000_0000 * a + 0x100_0000 * b + ThreeByteNumber(c, d, e)
  }

  function FiveSymbolNumber(a: nat, b: nat, c: nat, d: nat, e: nat): nat {
    0x10_0000 * a + 0x8000 * b + 0x400 * c + 0x20 * d + e
  }

  function EightSymbolNumber(a: nat, b: nat, c: nat, d: nat, e: nat, f: nat, g: nat, h: nat): nat {
    0x8_0000_0000 * a + 0x4000_0000 * b + 0x200_0000 * c + FiveSymbolNumber(d, e, f, g, h)
  }

  lemma NumberInBytes(xs: seq<byte>)
    requires |xs| == 3 || |xs| == 5
    ensures NumberIn(xs, 8) == if |xs| == 3 then ThreeByteNumber(xs[0], xs[1], xs[2])
                               else FiveByteNumber(xs[0], xs[1], xs[2], xs[3], xs[4])
  {
    hide NumberIn, Pow2;
    EmptyNumber(xs, 8);
    Prefixes(xs, 8, 0);
    Prefixes(xs, 8, 1);
    Prefixes(xs, 8, 2);
    if |xs| == 5 {
      Prefixes(xs, 8, 3);
      Prefixes(xs, 8, 4);
    }
    assert xs[..|xs|] == xs;
  }

  lemma EmptyNumber(xs: seq<byte>, w: nat)
    ensures NumberIn(xs[..0], w) == 0 && Pow2(8) == 256 && Pow2(5) == 32
  {
  }

  lemma NumberInSymbols(xs: seq<byte>)
    requires |xs| == 5 || |xs| == 8
    ensures NumberIn(xs, 5)
         == if |xs| == 5 then FiveSymbolNumber(xs[0], xs[1], xs[2], xs[3], xs[4])
            else EightSymbolNumber(xs[0], xs[1], xs[2], xs[3], xs[4], xs[5], xs[6], xs[7])
  {
    hide NumberIn, Pow2;
    EmptyNumber(xs, 5);
    Prefixes(xs, 5, 0);
    Prefixes(xs, 5, 1);
    Prefixes(xs, 5, 2);
    Prefixes(xs, 5, 3);
    Prefixes(xs, 5, 4);
    if |xs| == 8 {
      Prefixes(xs, 5, 5);
      Prefixes(xs, 5, 6);
      Prefixes(xs, 5, 7);
    }
    assert xs[..|xs|] == xs;
  }

  lemma FiveBytes(xs: seq<byte>, ys: seq<byte>)
    requires |xs| == 5 && |ys| == 8 && AreSymbols(ys)
    requires FiveByteNumber(xs[0], xs[1], xs[2], xs[3], xs[4])
          == EightSymbolNumber(ys[0], ys[1], ys[2], ys[3], ys[4], ys[5], ys[6], ys[7])
    ensures Unpack(xs, 8) == Unpack(ys, 5)
  {
    hide Unpack, BitsOf, NumberIn;
    NumberInBytes(xs);
    NumberInSymbols(ys);
    BytesFitEight(xs);
    assert Pow2(5) == 32;
    UnpackIsBits(xs, 8);
    UnpackIsBits(ys, 5);
  }

  lemma ThreeBytes(xs: seq<byte>, ys: seq<byte>)
    requires |xs| == 3 && |ys| == 5 && AreSymbols(ys)
    requires 2 * ThreeByteNumber(xs[0], xs[1], xs[2]) == FiveSymbolNumber(ys[0], ys[1], ys[2], ys[3], ys[4])
    ensures Unpack(xs, 8) + Falses(1) == Unpack(ys, 5)
  {
    hide Unpack, BitsOf, NumberIn;
    NumberInBytes(xs);
    NumberInSymbols(ys);
    BytesFitEight(xs);
    assert Pow2(5) == 32;
    UnpackIsBits(xs, 8);
    UnpackIsBits(ys, 5);
    OneMore(NumberIn(xs, 8), 24);
  }

  lemma OneMore(v: nat, n: nat)
    ensures BitsOf(2 * v, n + 1) == BitsOf(v, n) + Falses(1)
  {
    assert 2 * v / 2 == v && 2 * v % 2 == 0;
    assert Falses(1) == [false];
  }

  lemma FirstGroup()
    ensures Unpack([8, 243, 128, 49, 246], 8) == Unpack([1, 3, 25, 24, 0, 12, 15, 22], 5)
  {
    hide Unpack;
    FiveBytes([8, 243, 128, 49, 246], [1, 3, 25, 24, 0, 12, 15, 22]);
  }

  lemma SecondGroup()
    ensures Unpack([28, 162, 61, 112, 132], 8) == Unpack([3, 18, 17, 3, 26, 28, 4, 4], 5)
  {
    hide Unpack;
    FiveBytes([28, 162, 61, 112, 132], [3, 18, 17, 3, 26, 28, 4, 4]);
  }

  lemma ThirdGroup()
    ensures Unpack([79, 99, 164, 119, 208], 8) == Unpack([9, 29, 17, 26, 8, 29, 30, 16], 5)
  {
    hide Unpack;
    FiveBytes([79, 99, 164, 119, 208], [9, 29, 17, 26, 8, 29, 30, 16]);
  }

  lemma FourthGroup()
    ensures Unpack([127, 11, 44, 45, 236], 8) == Unpack([15, 28, 5, 18, 24, 11, 15, 12], 5)
  {
    hide Unpack;
    FiveBytes([127, 11, 44, 45, 236], [15, 28, 5, 18, 24, 11, 15, 12]);
  }

  lemma FifthGroup()
    ensures Unpack([171, 144, 124, 46, 9], 8) == Unpack([21, 14, 8, 7, 24, 11, 16, 9], 5)
  {
    hide Unpack;
    FiveBytes([171, 144, 124, 46, 9], [21, 14, 8, 7, 24, 11, 16, 9]);
  }

  lemma SixthGroup()
    ensures Unpack([110, 84, 139, 14, 8], 8) == Unpack([13, 25, 10, 8, 22, 3, 16, 8], 5)
  {
    hide Unpack;
    FiveBytes([110, 84, 139, 14, 8], [13, 25, 10, 8, 22, 3, 16, 8]);
  }

  lemma SeventhGroup()
    ensures Unpack([114, 28, 121], 8) + Falses(1) == Unpack([14, 8, 14, 7, 18], 5)
  {
    hide Unpack;
    ThreeBytes([114, 28, 121], [14, 8, 14, 7, 18]);
  }

  // ----- the register, word by word

  function AbsorbB(c: bv64, s: bv64): bv64 {
    XorB(StepB(c), s)
  }

  function FoldB(c: bv64, ss: seq<bv64>): bv64
    decreases |ss|
  {
    if ss == [] then c else FoldB(AbsorbB(c, ss[0]), ss[1..])
  }

  /** From register c the symbols lead to register d. */
  predicate Leads(c: bv64, xs: seq<byte>, d: bv64) {
    hide Fold, Nat;
    Fold(R(c), xs) == R(d)
  }

  lemma SmallSymbol(s: bv64)
    requires s <= 31
    ensures Nat(s, 40) == Five(s)
  {
    hide Nat, Bit0;
    NatFive(s, 35);
    assert Right5(s) == 0;
    ZeroNat(35);
  }

  lemma NoSymbols(c: bv64) returns (xs: seq<byte>, d: bv64)
    ensures xs == [] && d == c && Leads(c, xs, d)
  {
    xs, d := [], c;
  }

  /** Folding one more symbol on numbers is absorbing it on words; the new register is given. */
  lemma Next(c: bv64, xs: seq<byte>, w: bv64, s: bv64, d: bv64) returns (ys: seq<byte>, e: bv64)
    requires Leads(c, xs, w) && s <= 31 && AbsorbB(w, s) == d
    ensures ys == xs + [Five(s)] && e == d && Leads(c, ys, e)
  {
    hide Nat, Step, StepB, XorBits, Five, XorB;
    ys, e := xs + [Five(s)], d;
    SmallSymbol(s);
    StepAgrees(w);
    NatXor(StepB(w), s, 40);
    assert ys[..|xs|] == xs;
  }

  lemma PrefixRegister(c: bv64) returns (d: bv64)
    requires c == 0x1
    ensures Leads(c, [11, 1, 19, 16, 1, 0], d)
    ensures d == 0x5619c020
  {
    hide Leads;
    ghost var xs;
    xs, d := NoSymbols(c);
    xs, d := Next(c, xs, d, 11, 0x2b);
    xs, d := Next(c, xs, d, 1, 0x561);
    xs, d := Next(c, xs, d, 19, 0xac33);
    xs, d := Next(c, xs, d, 16, 0x158670);
    xs, d := Next(c, xs, d, 1, 0x2b0ce01);
    xs, d := Next(c, xs, d, 0, 0x5619c020);
    assert xs == [11, 1, 19, 16, 1, 0];
  }

  lemma FirstRegister(c: bv64) returns (d: bv64)
    requires c == 0x5619c020
    ensures Leads(c, [1, 3, 25, 24, 0, 12, 15, 22], d)
    ensures d == 0x8156b476f2
  {
    hide Leads;
    ghost var xs;
    xs, d := NoSymbols(c);
    xs, d := Next(c, xs, d, 1, 0xac3380401);
    xs, d := Next(c, xs, d, 3, 0xc095bc0e42);
    xs, d := Next(c, xs, d, 25, 0xa2d669ce81);
    xs, d := Next(c, xs, d, 24, 0xb7bc25878c);
    xs, d := Next(c, xs, d, 0, 0x6342c13fd6);
    xs, d := Next(c, xs, d, 12, 0x3548d3aba0);
    xs, d := Next(c, xs, d, 15, 0x2393475e29);
    xs, d := Next(c, xs, d, 22, 0x8156b476f2);
    assert xs == [1, 3, 25, 24, 0, 12, 15, 22];
  }

  lemma SecondRegister(c: bv64) returns (d: bv64)
    requires c == 0x8156b476f2
    ensures Leads(c, [3, 18, 17, 3, 26, 28, 4, 4], d)
    ensures d == 0xefd22b13bd
  {
    hide Leads;
    ghost var xs;
    xs, d := NoSymbols(c);
    xs, d := Next(c, xs, d, 3, 0x3499cd3a33);
    xs, d := Next(c, xs, d, 18, 0x19b0956c54);
    xs, d := Next(c, xs, d, 17, 0xd7577c9d12);
    xs, d := Next(c, xs, d, 3, 0x2339163d79);
    xs, d := Next(c, xs, d, 26, 0x941c981cfe);
    xs, d := Next(c, xs, d, 28, 0xe46b2de24e);
    xs, d := Next(c, xs, d, 4, 0xce3a0bfcd8);
    xs, d := Next(c, xs, d, 4, 0xefd22b13bd);
    assert xs == [3, 18, 17, 3, 26, 28, 4, 4];
  }

  lemma ThirdRegister(c: bv64) returns (d: bv64)
    requires c == 0xefd22b13bd
    ensures Leads(c, [9, 29, 17, 26, 8, 29, 30, 16], d)
    ensures d == 0xf345d31431
  {
    hide Leads;
    ghost var xs;
    xs, d := NoSymbols(c);
    xs, d := Next(c, xs, d, 9, 0x21e8694cd4);
    xs, d := Next(c, xs, d, 29, 0xce33762959);
    xs, d := Next(c, xs, d, 17, 0xeefd91a388);
    xs, d := Next(c, xs, d, 26, 0x41f3f4a67);
    xs, d := Next(c, xs, d, 8, 0x83e7e94ce8);
    xs, d := Next(c, xs, d, 29, 0x62b26a796d);
    xs, d := Next(c, xs, d, 30, 0xb5dbb7cd2);
    xs, d := Next(c, xs, d, 16, 0xf345d31431);
    assert xs == [9, 29, 17, 26, 8, 29, 30, 16];
  }

  lemma FourthRegister(c: bv64) returns (d: bv64)
    requires c == 0xf345d31431
    ensures Leads(c, [15, 28, 5, 18, 24, 11, 15, 12], d)
    ensures d == 0x8a4b1dfb0c
  {
    hide Leads;
    ghost var xs;
    xs, d := NoSymbols(c);
    xs, d := Next(c, xs, d, 15, 0x5252b8aad1);
    xs, d := Next(c, xs, d, 28, 0x9dced32176);
    xs, d := Next(c, xs, d, 5, 0x46d0f6dd36);
    xs, d := Next(c, xs, d, 18, 0x743070447a);
    xs, d := Next(c, xs, d, 24, 0xa2a99147d6);
    xs, d := Next(c, xs, d, 11, 0xb84334ad7f);
    xs, d := Next(c, xs, d, 15, 0x45258efd8);
    xs, d := Next(c, xs, d, 12, 0x8a4b1dfb0c);
    assert xs == [15, 28, 5, 18, 24, 11, 15, 12];
  }

  lemma FifthRegister(c: bv64) returns (d: bv64)
    requires c == 0x8a4b1dfb0c
    ensures Leads(c, [21, 14, 8, 7, 24, 11, 16, 9], d)
    ensures d == 0x3e96642059
  {
    hide Leads;
    ghost var xs;
    xs, d := NoSymbols(c);
    xs, d := Next(c, xs, d, 21, 0xcfde400b84);
    xs, d := Next(c, xs, d, 14, 0xd35b55f837);
    xs, d := Next(c, xs, d, 8, 0xa2bc3a99d2);
    xs, d := Next(c, xs, d, 7, 0xbaf64f6df3);
    xs, d := Next(c, xs, d, 24, 0x52fd20fe4f);
    xs, d := Next(c, xs, d, 11, 0x883dd9b2a1);
    xs, d := Next(c, xs, d, 16, 0x8106c93e21);
    xs, d := Next(c, xs, d, 9, 0x3e96642059);
    assert xs == [21, 14, 8, 7, 24, 11, 16, 9];
  }

  lemma SixthRegister(c: bv64) returns (d: bv64)
    requires c == 0x3e96642059
    ensures Leads(c, [13, 25, 10, 8, 22, 3, 16, 8], d)
    ensures d == 0xac2a09b6b4
  {
    hide Leads;
    ghost var xs;
    xs, d := NoSymbols(c);
    xs, d := Next(c, xs, d, 13, 0xc0b70aaf6a);
    xs, d := Next(c, xs, d, 25, 0xa680bdeb81);
    xs, d := Next(c, xs, d, 10, 0x3d66a1279e);
    xs, d := Next(c, xs, d, 8, 0xbeafaa578f);
    xs, d := Next(c, xs, d, 22, 0xd9c187b1c1);
    xs, d := Next(c, xs, d, 3, 0x6914cf2978);
    xs, d := Next(c, xs, d, 16, 0xe77badf01d);
    xs, d := Next(c, xs, d, 8, 0xac2a09b6b4);
    assert xs == [13, 25, 10, 8, 22, 3, 16, 8];
  }

  lemma SeventhRegister(c: bv64) returns (d: bv64)
    requires c == 0xac2a09b6b4
    ensures Leads(c, [14, 8, 14, 7, 18], d)
    ensures d == 0x7ae7a8f1e
  {
    hide Leads;
    ghost var xs;
    xs, d := NoSymbols(c);
    xs, d := Next(c, xs, d, 14, 0xf0c2960f5b);
    xs, d := Next(c, xs, d, 8, 0x22ba1bc796);
    xs, d := Next(c, xs, d, 14, 0xa47d27410a);
    xs, d := Next(c, xs, d, 7, 0x62d5f476f3);
    xs, d := Next(c, xs, d, 18, 0x7ae7a8f1e);
    assert xs == [14, 8, 14, 7, 18];
  }

  lemma CheckRegister(c: bv64) returns (d: bv64)
    requires c == 0x7ae7a8f1e
    ensures Leads(c, [8, 6, 9, 2, 9, 24, 5, 7], d)
    ensures d == 0x1
  {
    hide Leads;
    ghost var xs;
    xs, d := NoSymbols(c);
    xs, d := Next(c, xs, d, 8, 0xf5cf51e3c8);
    xs, d := Next(c, xs, d, 6, 0x8302e655f8);
    xs, d := Next(c, xs, d, 9, 0x7e13895b79);
    xs, d := Next(c, xs, d, 2, 0x7e240e29cd);
    xs, d := Next(c, xs, d, 9, 0x78d4e07f46);
    xs, d := Next(c, xs, d, 24, 0xa6c92aae37);
    xs, d := Next(c, xs, d, 5, 0x3454499151);
    xs, d := Next(c, xs, d, 7, 0x1);
    assert xs == [8, 6, 9, 2, 9, 24, 5, 7];
  }

  // ----- the address

  // Version byte 8 and the hash, five bytes at a time, and the symbols of the text, eight at a time.
  const B1: seq<byte> := [8, 243, 128, 49, 246]
  const B2: seq<byte> := [28, 162, 61, 112, 132]
  const B3: seq<byte> := [79, 99, 164, 119, 208]
  const B4: seq<byte> := [127, 11, 44, 45, 236]
  const B5: seq<byte> := [171, 144, 124, 46, 9]
  const B6: seq<byte> := [110, 84, 139, 14, 8]
  const B7: seq<byte> := [114, 28, 121]

  const P1: seq<byte> := [1, 3, 25, 24, 0, 12, 15, 22]
  const P2: seq<byte> := [3, 18, 17, 3, 26, 28, 4, 4]
  const P3: seq<byte> := [9, 29, 17, 26, 8, 29, 30, 16]
  const P4: seq<byte> := [15, 28, 5, 18, 24, 11, 15, 12]
  const P5: seq<byte> := [21, 14, 8, 7, 24, 11, 16, 9]
  const P6: seq<byte> := [13, 25, 10, 8, 22, 3, 16, 8]
  const P7: seq<byte> := [14, 8, 14, 7, 18]
  const P8: seq<byte> := [8, 6, 9, 2, 9, 24, 5, 7]

  function Bytes30(): seq<byte> {
    B1 + B2 + B3 + B4 + B5 + B6
  }

  function Symbols48(): seq<byte> {
    P1 + P2 + P3 + P4 + P5 + P6
  }

  lemma SplitHash()
    ensures [8] + HASH == Bytes30() + B7
  {
  }

  lemma FirstGroups()
    ensures Unpack(Bytes30(), 8) == Unpack(Symbols48(), 5)
  {
    hide Unpack;
    FirstGroup();
    SecondGroup();
    ThirdGroup();
    FourthGroup();
    FifthGroup();
    SixthGroup();
    JoinGroups(B1, P1, B2, P2);
    JoinGroups(B1 + B2, P1 + P2, B3, P3);
    JoinGroups(B1 + B2 + B3, P1 + P2 + P3, B4, P4);
    JoinGroups(B1 + B2 + B3 + B4, P1 + P2 + P3 + P4, B5, P5);
    JoinGroups(B1 + B2 + B3 + B4 + B5, P1 + P2 + P3 + P4 + P5, B6, P6);
  }

  lemma JoinGroups(xs: seq<byte>, ys: seq<byte>, zs: seq<byte>, ws: seq<byte>)
    requires Unpack(xs, 8) == Unpack(ys, 5) && Unpack(zs, 8) == Unpack(ws, 5)
    ensures Unpack(xs + zs, 8) == Unpack(ys + ws, 5)
  {
    hide Unpack;
    UnpackAppend(xs, zs, 8);
    UnpackAppend(ys, ws, 5);
  }

  /** The payload is the first 53 symbols. */
  lemma PayloadSymbols()
    ensures Payload(8, HASH) == Symbols48() + P7
  {
    hide Unpack, Pack, Bytes30, Symbols48, HASH;
    SplitHash();
    FirstGroups();
    SeventhGroup();
    UnpackAppend(Bytes30(), B7, 8);
    UnpackAppend(Symbols48(), P7, 5);
    PayloadSize();
    var ys := Symbols48() + P7;
    assert Unpack([8] + HASH, 8) + Falses(1) == Unpack(ys, 5);
    PackUnpack(ys, 5);
  }

  lemma PayloadSize()
    ensures |[8] + HASH| == 33 && |Symbols48()| == 48 && GroupCount(8 * 33, 5) == 53
    ensures Below(Symbols48() + P7, 5)
  {
    assert Pow2(5) == 32;
  }

  lemma ThroughRegisters()
    ensures Fold(Fold(1, Header(KASPA)), Symbols48() + P7 + P8) == 1
  {
    hide Fold, Nat, Header;
    PrefixSymbols();
    var c := PrefixRegister(1);
    var d := FirstRegister(c);
    var e := SecondRegister(d);
    var f := ThirdRegister(e);
    var g := FourthRegister(f);
    var h := FifthRegister(g);
    var i := SixthRegister(h);
    var j := SeventhRegister(i);
    var k := CheckRegister(j);
    OneIsOne();
    FoldAppend(R(c), P1, P2);
    FoldAppend(R(c), P1 + P2, P3);
    FoldAppend(R(c), P1 + P2 + P3, P4);
    FoldAppend(R(c), P1 + P2 + P3 + P4, P5);
    FoldAppend(R(c), P1 + P2 + P3 + P4 + P5, P6);
    FoldAppend(R(c), Symbols48(), P7);
    FoldAppend(R(c), Symbols48() + P7, P8);
  }

  lemma PrefixSymbols()
    ensures Header(KASPA) == [11, 1, 19, 16, 1, 0]
  {
  }

  lemma OneIsOne()
    ensures R(1) == 1
  {
    hide Nat;
    SmallSymbol(1);
    assert Five(1) == 1;
  }

  /** The text of the codeword: eight characters at a time, the checksum last. */
  const TEXT: string := "precqv0k" + "rj3r6uyy" + "fa36ga7s" + "0u9jct0v" + "4wg8ctsf" + "de2gkrsg" + "wgw8j" + "gxfzfc98"

  lemma SpellsChunk(xs: seq<byte>, ys: seq<byte>, s: string, t: string)
    requires AreSymbols(xs) && AreSymbols(ys) && Spells(Chars(xs), s) && Spells(Chars(ys), t)
    ensures AreSymbols(xs + ys) && Spells(Chars(xs + ys), s + t)
  {
    hide Chars;
    CharsAppend(xs, ys);
  }

  lemma FirstText()
    ensures AreSymbols(P1) && Spells(Chars(P1), "precqv0k")
  {
  }

  lemma SecondText()
    ensures AreSymbols(P2) && Spells(Chars(P2), "rj3r6uyy")
  {
  }

  lemma ThirdText()
    ensures AreSymbols(P3) && Spells(Chars(P3), "fa36ga7s")
  {
  }

  lemma FourthText()
    ensures AreSymbols(P4) && Spells(Chars(P4), "0u9jct0v")
  {
  }

  lemma FifthText()
    ensures AreSymbols(P5) && Spells(Chars(P5), "4wg8ctsf")
  {
  }

  lemma SixthText()
    ensures AreSymbols(P6) && Spells(Chars(P6), "de2gkrsg")
  {
  }

  lemma SeventhText()
    ensures AreSymbols(P7) && Spells(Chars(P7), "wgw8j")
  {
  }

  lemma EighthText()
    ensures AreSymbols(P8) && Spells(Chars(P8), "gxfzfc98")
  {
  }

  lemma TextSymbols()
    ensures AreSymbols(Symbols48() + P7 + P8) && Spells(Chars(Symbols48() + P7 + P8), TEXT)
  {
    hide Spells, Chars;
    FirstText();
    SecondText();
    ThirdText();
    FourthText();
    FifthText();
    SixthText();
    SeventhText();
    EighthText();
    SpellsChunk(P1, P2, "precqv0k", "rj3r6uyy");
    SpellsChunk(P1 + P2, P3, "precqv0k" + "rj3r6uyy", "fa36ga7s");
    SpellsChunk(P1 + P2 + P3, P4, "precqv0k" + "rj3r6uyy" + "fa36ga7s", "0u9jct0v");
    SpellsChunk(P1 + P2 + P3 + P4, P5, "precqv0k" + "rj3r6uyy" + "fa36ga7s" + "0u9jct0v", "4wg8ctsf");
    SpellsChunk(P1 + P2 + P3 + P4 + P5, P6, "precqv0k" + "rj3r6uyy" + "fa36ga7s" + "0u9jct0v" + "4wg8ctsf", "de2gkrsg");
    SpellsChunk(P1 + P2 + P3 + P4 + P5 + P6, P7, "precqv0k" + "rj3r6uyy" + "fa36ga7s" + "0u9jct0v" + "4wg8ctsf" + "de2gkrsg", "wgw8j");
    SpellsChunk(P1 + P2 + P3 + P4 + P5 + P6 + P7, P8, "precqv0k" + "rj3r6uyy" + "fa36ga7s" + "0u9jct0v" + "4wg8ctsf" + "de2gkrsg" + "wgw8j", "gxfzfc98");
  }

  /**
   * The address of this script hash is the one published: its text is a codeword, and no other codeword has the same
   * payload.
   */
  lemma PublishedAddress()
    ensures Spells(Encoded(8, HASH), TEXT)
  {
    hide Fold, Payload, ChecksumSymbols, Chars, Symbols48, HASH;
    var xs, ys := Codeword(8, HASH), Symbols48() + P7 + P8;
    PayloadSymbols();
    ThroughRegisters();
    TextSymbols();
    EncodedIsCodeword(8, HASH);
    PayloadSize();
    assert xs[..53] == ys[..53] && xs[61..] == ys[61..];
    BurstDetected(xs, ys, 53);
  }

  /** address_from_pubkey for the same hash, as a script address. */
  lemma PublishedScriptAddress(rest: seq<byte>)
    requires |rest| == 32
    ensures |HASH| == 32 && Spells(AddressText(HASH + rest, P2SH), "kaspa:" + TEXT)
  {
    hide Payload, Encoded, TEXT;
    PublishedAddress();
    Texts();
    assert (HASH + rest)[..32] == HASH;
  }
}

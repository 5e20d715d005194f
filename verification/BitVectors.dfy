/** Numbers as bit vectors: exclusive or, shifts and masks on both sides agree. */
module BitVectors {
  import opened Word64

  const TOP: bv64 := 0x8000_0000_0000_0000

  // The operations, named so that proofs about numbers need not look at single bits.

  function Half(x: bv64): bv64 {
    x >> 1
  }

  function Bit0(x: bv64): nat {
    if x & 1 == 1 then 1 else 0
  }

  function Right5(x: bv64): bv64 {
    x >> 5
  }

  function XorB(x: bv64, y: bv64): bv64 {
    x ^ y
  }

  function And(x: bv64, y: bv64): bv64 {
    x & y
  }

  /** The number in the n low bits of x. */
  function Nat(x: bv64, n: nat): (v: nat)
    ensures v < Pow2(n)
    decreases n
  {
    if n == 0 then 0 else 2 * Nat(Half(x), n - 1) + Bit0(x)
  }

  lemma NatStep(x: bv64, n: nat)
    requires n > 0
    ensures Nat(x, n) == 2 * Nat(Half(x), n - 1) + Bit0(x) && Bit0(x) < 2
  {
  }

  lemma NatNone(x: bv64)
    ensures Nat(x, 0) == 0
  {
  }

  // ----- exclusive or

  lemma LowestBit(x: bv64)
    ensures x & 1 == 0 || x & 1 == 1
  {
  }

  lemma XorHalves(x: bv64, y: bv64)
    ensures Half(XorB(x, y)) == XorB(Half(x), Half(y))
    ensures Bit0(XorB(x, y)) == if Bit0(x) == Bit0(y) then 0 else 1
  {
    LowestBit(x);
    LowestBit(y);
    assert (x ^ y) & 1 == (x & 1) ^ (y & 1);
  }

  lemma {:induction false} NatXor(x: bv64, y: bv64, n: nat)
    ensures XorBits(Nat(x, n), Nat(y, n)) == Nat(XorB(x, y), n)
    decreases n
  {
    hide XorBits, Nat, Bit0, Pow2, Half, XorB;
    if n == 0 {
      XorZero(0);
      NatNone(x);
      NatNone(y);
      NatNone(XorB(x, y));
    } else {
      NatXor(Half(x), Half(y), n - 1);
      XorHalves(x, y);
      NatStep(x, n);
      NatStep(y, n);
      NatStep(XorB(x, y), n);
      Parity(Bit0(x), Bit0(y));
      XorOfHalves(Bit0(x), Nat(Half(x), n - 1), Bit0(y), Nat(Half(y), n - 1));
    }
  }

  // ----- low and high bits

  lemma {:induction false} NatLow(x: bv64, m: nat, n: nat)
    requires n <= m
    ensures Low(Nat(x, m), n) == Nat(x, n)
    decreases n
  {
    hide Nat, Bit0, Low, High, Half, Pow2;
    if n == 0 {
      HighLowNone(Nat(x, m));
      NatNone(x);
    } else {
      NatStep(x, m);
      NatStep(x, n);
      NatLow(Half(x), m - 1, n - 1);
      Halve(Nat(Half(x), m - 1), Bit0(x));
      HighLowStep(Nat(x, m), n);
    }
  }

  /** n single shifts. */
  function Right(x: bv64, n: nat): bv64
    decreases n
  {
    if n == 0 then x else Right(Half(x), n - 1)
  }

  lemma {:induction false} NatHigh(x: bv64, n: nat, k: nat)
    ensures High(Nat(x, n + k), k) == Nat(Right(x, k), n)
    decreases k
  {
    hide Nat, Bit0, Low, Half, Pow2;
    if k == 0 {
    } else {
      NatStep(x, n + k);
      Halve(Nat(Half(x), n + k - 1), Bit0(x));
      NatHigh(Half(x), n, k - 1);
    }
  }

  lemma {:induction false} RightPlus(x: bv64, m: nat, n: nat)
    ensures Right(x, m + n) == Right(Right(x, m), n)
    decreases m
  {
    hide Half;
    if m == 0 {
    } else {
      RightPlus(Half(x), m - 1, n);
    }
  }

  lemma Shift5(x: bv64)
    ensures Right(x, 5) == x >> 5
  {
    assert x >> 1 >> 1 == x >> 2 && x >> 2 >> 1 == x >> 3 && x >> 3 >> 1 == x >> 4 && x >> 4 >> 1 == x >> 5;
    assert Right(x >> 4, 1) == x >> 5;
    assert Right(x >> 3, 2) == x >> 5;
    assert Right(x >> 2, 3) == x >> 5;
    assert Right(x >> 1, 4) == x >> 5;
  }

  lemma FiveMore(x: bv64, k: nat, y: bv64)
    requires Right(x, k) == y
    ensures Right(x, k + 5) == Right5(y)
  {
    RightPlus(x, k, 5);
    Shift5(y);
  }

  lemma Shift35(x: bv64)
    ensures Right(x, 35) == x >> 35
  {
    ShiftSum(x);
    hide Right5;
    FiveMore(x, 0, x);
    hide Right;
    var a := Right5(x);
    FiveMore(x, 5, a);
    var b := Right5(a);
    FiveMore(x, 10, b);
    var c := Right5(b);
    FiveMore(x, 15, c);
    var d := Right5(c);
    FiveMore(x, 20, d);
    var e := Right5(d);
    FiveMore(x, 25, e);
    FiveMore(x, 30, Right5(e));
  }

  lemma ShiftSum(x: bv64)
    ensures Right5(Right5(Right5(Right5(Right5(Right5(Right5(x))))))) == x >> 35
  {
  }

  /** The five low bits. */
  function Five(x: bv64): (v: nat)
    ensures v < 32
  {
    Bit0(x) + 2 * Bit0(x >> 1) + 4 * Bit0(x >> 2) + 8 * Bit0(x >> 3) + 16 * Bit0(x >> 4)
  }

  lemma NatFive(x: bv64, n: nat)
    ensures Nat(x, n + 5) == Five(x) + 32 * Nat(Right5(x), n)
  {
    hide Bit0, Nat;
    Halves(x);
    NatStep(x, n + 5);
    NatStep(x >> 1, n + 4);
    NatStep(x >> 2, n + 3);
    NatStep(x >> 3, n + 2);
    NatStep(x >> 4, n + 1);
  }

  lemma Halves(x: bv64)
    ensures Half(x) == x >> 1 && Half(x >> 1) == x >> 2 && Half(x >> 2) == x >> 3 && Half(x >> 3) == x >> 4
    ensures Half(x >> 4) == x >> 5
  {
  }

  lemma NatTwenty(x: bv64, n: nat)
    ensures var a := Right5(x);
            var b := Right5(a);
            var c := Right5(b);
            Nat(x, n + 20) == Five(x) + 0x20 * Five(a) + 0x400 * Five(b) + 0x8000 * Five(c) + 0x10_0000 * Nat(Right5(c), n)
  {
    hide Five, Nat, Right5, Pow2, Half, Bit0;
    var a := Right5(x);
    var b := Right5(a);
    var c := Right5(b);
    NatFive(x, n + 15);
    NatFive(a, n + 10);
    NatFive(b, n + 5);
    NatFive(c, n);
  }

  /** A value of forty bits, digit by digit: for numbers written out. */
  lemma NatForty(x: bv64)
    ensures var a := Right5(x);
            var b := Right5(a);
            var c := Right5(b);
            var d := Right5(c);
            var e := Right5(d);
            var f := Right5(e);
            var g := Right5(f);
            Nat(x, 40) == Five(x) + 0x20 * Five(a) + 0x400 * Five(b) + 0x8000 * Five(c) + 0x10_0000 * Five(d)
                          + 0x200_0000 * Five(e) + 0x4000_0000 * Five(f) + 0x8_0000_0000 * Five(g)
  {
    hide Five, Nat, Right5, Pow2, Half, Bit0;
    var d := Right5(Right5(Right5(Right5(x))));
    NatTwenty(x, 20);
    NatTwenty(d, 0);
    NatNone(Right5(Right5(Right5(Right5(d)))));
  }

  // ----- masks and shifts to the left

  /** m has its n low bits set. */
  predicate Ones(m: bv64, n: nat)
    decreases n
  {
    n == 0 || (Bit0(m) == 1 && Ones(Half(m), n - 1))
  }

  lemma AndHalves(x: bv64, m: bv64)
    ensures Half(And(x, m)) == And(Half(x), Half(m))
    ensures Bit0(m) == 1 ==> Bit0(And(x, m)) == Bit0(x)
  {
    assert (x & m) & 1 == (x & 1) & (m & 1);
    LowestBit(m);
    LowestBit(x);
  }

  lemma {:induction false} NatMasked(x: bv64, m: bv64, n: nat)
    requires Ones(m, n)
    ensures Nat(And(x, m), n) == Nat(x, n)
    decreases n
  {
    hide Nat, Bit0, Half, And, Pow2;
    if n == 0 {
      NatNone(x);
      NatNone(And(x, m));
    } else {
      AndHalves(x, m);
      NatStep(x, n);
      NatStep(And(x, m), n);
      NatMasked(Half(x), Half(m), n - 1);
    }
  }

  lemma OnesFive(m: bv64, n: nat)
    requires m & 0x1f == 0x1f && Ones(m >> 5, n)
    ensures Ones(m, n + 5)
  {
    Halves(m);
    assert m & 1 == 1 && (m >> 1) & 1 == 1 && (m >> 2) & 1 == 1 && (m >> 3) & 1 == 1 && (m >> 4) & 1 == 1;
    hide Half;
    assert Ones(m >> 4, n + 1);
    assert Ones(m >> 3, n + 2);
    assert Ones(m >> 2, n + 3);
    assert Ones(m >> 1, n + 4);
  }

  /** Shifting five to the left, with nothing lost at the top. */
  lemma NatLeft(z: bv64, n: nat)
    requires z <= 0x7_ffff_ffff
    ensures Nat(z << 5, n + 5) == 32 * Nat(z, n)
  {
    hide Nat;
    LeftShift(z);
    NatFive(z << 5, n);
  }

  lemma LeftShift(z: bv64)
    requires z <= 0x7_ffff_ffff
    ensures z << 5 >> 5 == z && Five(z << 5) == 0
  {
  }
}

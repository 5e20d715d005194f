/** The checksum step over GF(32): multiplying every digit of the register by x commutes with it. */
module ChecksumField {
  import opened Bytes
  import opened Word64
  import opened Checksum
  import opened BitVectors
  import ChecksumBits

  /** A five-bit digit times x, modulo x^5 + x^3 + 1. */
  function Times5(d: nat): nat {
    XorBits(2 * Low(d, 4), Select(High(d, 4), 9))
  }

  /** The n low digits of r, each times x. */
  function TimesX(r: nat, n: nat): nat
    decreases n
  {
    if n == 0 then 0 else 32 * TimesX(High(r, 5), n - 1) + Times5(Low(r, 5))
  }

  lemma DigitBound(d: nat)
    ensures Times5(d) < 32
  {
    hide XorBits, Low, High;
    HighLow(d, 4);
    assert Pow2(4) == 16 && Pow2(5) == 32;
    XorBound(2 * Low(d, 4), Select(High(d, 4), 9), 5);
  }

  lemma TimesStep(h: nat, d: nat, n: nat)
    requires d < 32
    ensures TimesX(32 * h + d, n + 1) == 32 * TimesX(h, n) + Times5(d)
  {
    hide Times5, High, Low, Pow2;
    Checksum.Shift35();
    HighLowDivMod(32 * h + d, 5);
    DivModUnique(h, d, 32);
  }

  /** Exclusive or of numbers joined from digits. */
  lemma XorJoined(p: nat, x: nat, q: nat, y: nat)
    requires x < 32 && y < 32
    ensures XorBits(32 * p + x, 32 * q + y) == 32 * XorBits(p, q) + XorBits(x, y)
  {
    hide XorBits, High, Low, Pow2;
    Checksum.Shift35();
    var a, b := 32 * p + x, 32 * q + y;
    HighLowDivMod(a, 5);
    DivModUnique(p, x, 32);
    HighLowDivMod(b, 5);
    DivModUnique(q, y, 32);
    XorHigh(a, b, 5);
    XorLow(a, b, 5);
    HighLow(XorBits(a, b), 5);
  }

  lemma DigitLinear(d: nat, e: nat)
    ensures Times5(XorBits(d, e)) == XorBits(Times5(d), Times5(e))
  {
    hide XorBits, High, Low;
    XorLow(d, e, 4);
    XorDoubled(Low(d, 4), Low(e, 4));
    XorHigh(d, e, 4);
    SelectLinear(High(d, 4), High(e, 4), 9);
    XorSwap(2 * Low(d, 4), 2 * Low(e, 4), Select(High(d, 4), 9), Select(High(e, 4), 9));
  }

  lemma {:induction false} TimesLinear(a: nat, b: nat, n: nat)
    ensures TimesX(XorBits(a, b), n) == XorBits(TimesX(a, n), TimesX(b, n))
    decreases n
  {
    hide XorBits, High, Low, Times5;
    if n == 0 {
      XorZero(0);
    } else {
      XorHigh(a, b, 5);
      XorLow(a, b, 5);
      TimesLinear(High(a, 5), High(b, 5), n - 1);
      DigitLinear(Low(a, 5), Low(b, 5));
      DigitBound(Low(a, 5));
      DigitBound(Low(b, 5));
      XorJoined(TimesX(High(a, 5), n - 1), Times5(Low(a, 5)), TimesX(High(b, 5), n - 1), Times5(Low(b, 5)));
    }
  }

  lemma {:induction false} TimesBound(r: nat, n: nat)
    ensures TimesX(r, n) < Pow2(5 * n)
    decreases n
  {
    hide Times5, High, Low, Pow2;
    if n == 0 {
      Pow2Zero();
    } else {
      TimesBound(High(r, 5), n - 1);
      DigitBound(Low(r, 5));
      Pow2Sum(5, 5 * (n - 1));
      Checksum.Shift35();
    }
  }

  lemma {:induction false} NoneTimes(n: nat)
    ensures Times5(0) == 0 && TimesX(0, n) == 0
  {
    if n == 0 {
    } else {
      NoneTimes(n - 1);
    }
  }

  /** A digit on top of n others. */
  lemma {:induction false} TimesTop(h: nat, l: nat, n: nat)
    requires h < 32 && l < Pow2(5 * n)
    ensures TimesX(h * Pow2(5 * n) + l, n + 1) == Times5(h) * Pow2(5 * n) + TimesX(l, n)
    decreases n
  {
    hide Times5, High, Low, Pow2;
    if n == 0 {
      Pow2Zero();
      TimesStep(0, h, 0);
      assert TimesX(0, 0) == 0 && TimesX(l, 0) == 0;
    } else {
      var p := Pow2(5 * (n - 1));
      Pow2Sum(5, 5 * (n - 1));
      Checksum.Shift35();
      HighLow(l, 5);
      var hi, lo := High(l, 5), Low(l, 5);
      Scaled(h, p);
      TopDigit(h, hi, lo, l, p);
      TimesTop(h, hi, n - 1);
      TimesStep(h * p + hi, lo, n);
      TimesStep(hi, lo, n - 1);
      Scaled(Times5(h), p);
    }
  }

  lemma Scaled(h: nat, p: nat)
    ensures h * (32 * p) == 32 * (h * p)
  {
  }

  lemma TopDigit(h: nat, hi: nat, lo: nat, l: nat, p: nat)
    requires l == hi * 32 + lo && lo < 32 && l < 32 * p
    ensures hi < p && h * (32 * p) + l == 32 * (h * p + hi) + lo
  {
    Scaled(h, p);
  }

  // ----- the five masks are powers of x times the first one

  lemma FlipOne(f: nat)
    ensures XorBits(f, 1) == if f % 2 == 0 then f + 1 else f - 1
  {
    hide XorBits;
    XorStep(f, 1);
    XorZero(f / 2);
    Parity(f, 1);
    HalfAndBit(f);
    HalfAndBit(XorBits(f, 1));
  }

  lemma FlipFour(f: nat)
    requires f < 16
    ensures XorBits(f, 4) == if f / 4 % 2 == 0 then f + 4 else f - 4
  {
    hide XorBits;
    FlipOne(f / 4);
    XorShifted(f / 4, 1, f / 2);
    XorShifted(f / 2, 2, f);
  }

  lemma XorShifted(p: nat, q: nat, x: nat)
    requires x / 2 == p
    ensures XorBits(x, 2 * q) == 2 * XorBits(p, q) + x % 2
  {
    hide XorBits;
    XorStep(x, 2 * q);
    LastBit(q, x);
    HalfAndBit(XorBits(x, 2 * q));
  }

  lemma DigitValue(d: nat)
    requires d < 32
    ensures Times5(d) == if d < 16 then 2 * d else if d / 4 % 2 == 0 then 2 * d - 23 else 2 * d - 39
  {
    hide XorBits, High, Low;
    HighLowDivMod(d, 4);
    assert Pow2(4) == 16;
    XorZero(2 * Low(d, 4));
    if d >= 16 {
      XorDouble(d - 16, 9);
      FlipFour(d - 16);
    }
  }

  /** Eight digits at once. */
  lemma TimesForty(a: nat, b: nat, c: nat, d: nat, e: nat, f: nat, g: nat, h: nat) returns (r: nat)
    requires a < 32 && b < 32 && c < 32 && d < 32 && e < 32 && f < 32 && g < 32 && h < 32
    ensures r == a + 0x20 * b + 0x400 * c + 0x8000 * d + 0x10_0000 * e + 0x200_0000 * f + 0x4000_0000 * g
                 + 0x8_0000_0000 * h
    ensures TimesX(r, 8)
         == Times5(a) + 0x20 * Times5(b) + 0x400 * Times5(c) + 0x8000 * Times5(d) + 0x10_0000 * Times5(e)
            + 0x200_0000 * Times5(f) + 0x4000_0000 * Times5(g) + 0x8_0000_0000 * Times5(h)
  {
    hide Times5, TimesX;
    var n := NoDigits();
    var v7 := TimesDigit(n, h, 0);
    var v6 := TimesDigit(v7, g, 1);
    var v5 := TimesDigit(v6, f, 2);
    var v4 := TimesDigit(v5, e, 3);
    var v3 := TimesDigit(v4, d, 4);
    var v2 := TimesDigit(v3, c, 5);
    var v1 := TimesDigit(v2, b, 6);
    r := TimesDigit(v1, a, 7);
  }

  lemma NoDigits() returns (n: nat)
    ensures n == 0 && TimesX(n, 0) == 0
  {
    n := 0;
  }

  lemma TimesDigit(v: nat, d: nat, n: nat) returns (w: nat)
    requires d < 32
    ensures w == d + 32 * v && TimesX(w, n + 1) == Times5(d) + 32 * TimesX(v, n)
  {
    hide Times5, TimesX;
    w := 32 * v + d;
    TimesStep(v, d, n);
  }

  lemma FirstMask()
    ensures TimesX(0x98f2bc8e61, 8) == 0x79b76d99e2
  {
    hide Times5, TimesX;
    var _ := TimesForty(1, 19, 3, 25, 11, 25, 3, 19);
    DigitValue(1);
    DigitValue(3);
    DigitValue(11);
    DigitValue(19);
    DigitValue(25);
  }

  lemma SecondMask()
    ensures TimesX(0x79b76d99e2, 8) == 0xf33e5fb3c4
  {
    hide Times5, TimesX;
    var _ := TimesForty(2, 15, 6, 27, 22, 27, 6, 15);
    DigitValue(2);
    DigitValue(6);
    DigitValue(15);
    DigitValue(22);
    DigitValue(27);
  }

  lemma ThirdMask()
    ensures TimesX(0xf33e5fb3c4, 8) == 0xae2eabe2a8
  {
    hide Times5, TimesX;
    var _ := TimesForty(4, 30, 12, 31, 5, 31, 12, 30);
    DigitValue(4);
    DigitValue(5);
    DigitValue(12);
    DigitValue(30);
    DigitValue(31);
  }

  lemma FourthMask()
    ensures TimesX(0xae2eabe2a8, 8) == 0x1e4f43e470
  {
    hide Times5, TimesX;
    var _ := TimesForty(8, 21, 24, 23, 10, 23, 24, 21);
    DigitValue(8);
    DigitValue(10);
    DigitValue(21);
    DigitValue(23);
    DigitValue(24);
  }

  lemma FifthMask()
    ensures TimesX(0x1e4f43e470, 8) == 0x36dc176cc9
  {
    hide Times5, TimesX;
    var _ := TimesForty(16, 3, 25, 7, 20, 7, 25, 3);
    DigitValue(3);
    DigitValue(7);
    DigitValue(16);
    DigitValue(20);
    DigitValue(25);
  }

  // ----- the step commutes

  lemma PowerFeedback(i: nat)
    requires i < 5
    ensures Feedback(Pow2(i)) == [0x98f2bc8e61, 0x79b76d99e2, 0xf33e5fb3c4, 0xae2eabe2a8, 0x1e4f43e470][i]
  {
    hide XorBits;
    var b := Pow2(i);
    assert b == [1, 2, 4, 8, 16][i];
    PowerBits(i);
    var g: register := [0x98f2bc8e61, 0x79b76d99e2, 0xf33e5fb3c4, 0xae2eabe2a8, 0x1e4f43e470][i];
    XorWithItselfOrZero(g);
  }

  lemma PowerBits(i: nat)
    requires i < 5
    ensures var b := [1, 2, 4, 8, 16][i];
            b % 2 == (if i == 0 then 1 else 0) && High(b, 1) % 2 == (if i == 1 then 1 else 0) &&
            High(b, 2) % 2 == (if i == 2 then 1 else 0) && High(b, 3) % 2 == (if i == 3 then 1 else 0) &&
            High(b, 4) % 2 == (if i == 4 then 1 else 0)
  {
  }

  /** On one bit: the next mask, or the fourth and the first for the top bit. */
  lemma PowerTimes(i: nat)
    requires i < 5
    ensures Feedback(Times5(Pow2(i))) == TimesX(Feedback(Pow2(i)), 8)
  {
    hide Feedback, TimesX, Times5, XorBits;
    PowerFeedback(i);
    assert Pow2(i) == [1, 2, 4, 8, 16][i];
    DigitValue(Pow2(i));
    if i == 4 {
      FifthMask();
      NineIsEightAndOne();
      FeedbackLinear(8, 1);
      PowerFeedback(3);
      PowerFeedback(0);
      FourthAndFirst();
    } else {
      PowerFeedback(i + 1);
      FirstMask();
      SecondMask();
      ThirdMask();
      FourthMask();
    }
  }

  lemma NineIsEightAndOne()
    ensures XorBits(8, 1) == 9 && Pow2(0) == 1 && Pow2(3) == 8
  {
  }

  lemma FourthAndFirst()
    ensures XorBits(0xae2eabe2a8, 0x98f2bc8e61) == 0x36dc176cc9
  {
    hide Nat;
    ChecksumBits.MaskValue3();
    ChecksumBits.MaskValue0();
    NatXor(0xae2eabe2a8, 0x98f2bc8e61, 40);
    NatForty(0x36dc176cc9);
  }

  /** Any five bits, by linearity. */
  lemma {:induction false} FeedbackTimes(h: nat, n: nat)
    requires h < Pow2(n) && n <= 5
    ensures Feedback(Times5(h)) == TimesX(Feedback(h), 8)
    decreases n
  {
    hide Feedback, TimesX, Times5, XorBits;
    if n == 0 {
      NoneTimes(8);
      FeedbackNone();
    } else if h < Pow2(n - 1) {
      FeedbackTimes(h, n - 1);
    } else {
      var p := Pow2(n - 1);
      var l := h - p;
      FeedbackTimes(l, n - 1);
      PowerTimes(n - 1);
      XorDisjoint(1, l, n - 1);
      FeedbackLinear(p, l);
      DigitLinear(p, l);
      FeedbackLinear(Times5(p), Times5(l));
      TimesLinear(Feedback(p), Feedback(l), 8);
    }
  }

  /** Every digit of the register times x. */
  function Times(a: register): register {
    hide TimesX, Pow2;
    TimesBound(a, 8);
    Checksum.Shift35();
    TimesX(a, 8)
  }

  /** The step is linear over GF(32): it commutes with multiplying every digit by x. */
  lemma StepCommutes(a: register)
    ensures Step(Times(a)) == Times(Step(a))
  {
    hide Feedback, TimesX, Times5, XorBits, High, Low, Pow2;
    Checksum.Shift35();
    TopBits(a);
    var h, l := High(a, 35), Low(a, 35);
    HighLow(a, 35);
    TimesTop(h, l, 7);
    TimesBound(l, 7);
    DigitBound(h);
    HighLowDivMod(TimesX(a, 8), 35);
    DivModUnique(Times5(h), TimesX(l, 7), Pow2(35));
    FeedbackTimes(h, 5);
    TimesLinear(Checksum.Shifted(a), Feedback(h), 8);
    NoneTimes(0);
    TimesStep(l, 0, 7);
  }
}

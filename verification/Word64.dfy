/** The 64-bit word operations of BLAKE2b on integers below 2^64. */
module Word64 {
  import opened Bytes

  type word = u64

  function Pow2(n: nat): (p: nat)
    ensures p > 0
  {
    if n == 0 then 1 else 2 * Pow2(n - 1)
  }

  lemma Pow2Step(n: nat)
    requires n > 0
    ensures Pow2(n) == 2 * Pow2(n - 1)
  {
  }

  lemma Twice(x: int, y: int)
    ensures (2 * x) * y == 2 * (x * y) && x * (2 * y) == 2 * (x * y)
  {
  }

  lemma Distribute(a: int, b: int, q: int)
    ensures (a + b) * q == a * q + b * q
  {
  }

  lemma {:induction false} NonNegative(d: nat, q: nat)
    ensures d * q >= 0
  {
    if d == 0 {
    } else {
      NonNegative(d - 1, q);
      Distribute(d - 1, 1, q);
    }
  }

  /** A number below 2, behind a doubled one, is the last bit. */
  lemma Halve(x: nat, b: nat)
    requires b < 2
    ensures (2 * x + b) / 2 == x && (2 * x + b) % 2 == b
  {
  }

  lemma Parity(x: nat, y: nat)
    ensures (x + y) % 2 == (x % 2 + y % 2) % 2 == if x % 2 == y % 2 then 0 else 1
  {
  }

  lemma {:induction false} Pow2Sum(a: nat, b: nat)
    ensures Pow2(a) * Pow2(b) == Pow2(a + b)
    decreases a
  {
    hide Pow2;
    if a == 0 {
      Pow2Zero();
    } else {
      Pow2Sum(a - 1, b);
      Pow2Step(a);
      Pow2Step(a + b);
      Twice(Pow2(a - 1), Pow2(b));
    }
  }

  lemma Pow2Zero()
    ensures Pow2(0) == 1
  {
  }

  lemma {:induction false} Pow2Monotone(m: nat, n: nat)
    requires m <= n
    ensures Pow2(m) <= Pow2(n)
    decreases n - m
  {
    if m == n {
    } else {
      Pow2Monotone(m + 1, n);
    }
  }

  lemma Pow2Word()
    ensures Pow2(32) == 0x1_0000_0000 && Pow2(64) == TWO_64
  {
    assert Pow2(8) == 0x100;
    Pow2Sum(8, 8);
    assert Pow2(16) == 0x1_0000;
    Pow2Sum(16, 16);
    assert Pow2(32) == 0x1_0000_0000;
    Pow2Sum(32, 32);
  }

  /** Addition modulo 2^64. */
  function Add(a: word, b: word): word {
    (a + b) % TWO_64
  }

  function Sub(a: word, b: word): word {
    (a - b) % TWO_64
  }

  lemma AddInverse(a: word, b: word)
    ensures Sub(Add(a, b), b) == a == Add(Sub(a, b), b)
  {
  }

  /** Bitwise exclusive or. */
  function XorBits(a: nat, b: nat): nat {
    if a == 0 && b == 0 then 0
    else 2 * XorBits(a / 2, b / 2) + (a + b) % 2
  }

  lemma {:induction false} XorBound(a: nat, b: nat, n: nat)
    requires a < Pow2(n) && b < Pow2(n)
    ensures XorBits(a, b) < Pow2(n)
    decreases n
  {
    if n == 0 {
    } else {
      XorBound(a / 2, b / 2, n - 1);
    }
  }

  lemma XorStep(a: nat, b: nat)
    ensures XorBits(a, b) / 2 == XorBits(a / 2, b / 2)
    ensures XorBits(a, b) % 2 == (a + b) % 2
  {
  }

  lemma {:induction false} XorZero(a: nat)
    ensures XorBits(a, 0) == a
  {
    if a == 0 {
    } else {
      XorZero(a / 2);
    }
  }

  lemma {:induction false} XorSelf(a: nat)
    ensures XorBits(a, a) == 0
  {
    if a == 0 {
    } else {
      XorSelf(a / 2);
    }
  }

  lemma {:induction false} XorAssociative(a: nat, b: nat, c: nat)
    ensures XorBits(XorBits(a, b), c) == XorBits(a, XorBits(b, c))
  {
    hide XorBits;
    if a == 0 && b == 0 && c == 0 {
      XorZero(0);
    } else {
      var x, y := XorBits(a, b), XorBits(b, c);
      XorAssociative(a / 2, b / 2, c / 2);
      XorStep(a, b);
      XorStep(b, c);
      XorStep(x, c);
      XorStep(a, y);
      Parity(a, b);
      Parity(b, c);
      Parity(x, c);
      Parity(a, y);
      SameHalves(XorBits(x, c), XorBits(a, y));
    }
  }

  lemma SameHalves(x: nat, y: nat)
    requires x / 2 == y / 2 && x % 2 == y % 2
    ensures x == y
  {
  }

  lemma LastBit(y: nat, lo: nat)
    ensures 2 * y / 2 == y && (2 * y + lo) % 2 == lo % 2
  {
  }

  lemma HalfAndBit(x: nat)
    ensures x == 2 * (x / 2) + x % 2
  {
  }

  lemma XorDouble(y: nat, lo: nat)
    ensures XorBits(2 * y, lo) == 2 * XorBits(y, lo / 2) + lo % 2
  {
    hide XorBits;
    XorStep(2 * y, lo);
    LastBit(y, lo);
    HalfAndBit(XorBits(2 * y, lo));
  }

  /** Numbers with disjoint bits are xored by adding them. */
  lemma {:induction false} XorDisjoint(hi: nat, lo: nat, n: nat)
    requires lo < Pow2(n)
    ensures XorBits(hi * Pow2(n), lo) == hi * Pow2(n) + lo
    decreases n
  {
    hide XorBits, Pow2;
    if n == 0 {
      Pow2Zero();
      XorZero(hi);
    } else {
      Pow2Step(n);
      XorDisjoint(hi, lo / 2, n - 1);
      var y := hi * Pow2(n - 1);
      NonNegative(hi, Pow2(n - 1));
      Twice(hi, Pow2(n - 1));
      XorDouble(y, lo);
    }
  }

  function Xor(a: word, b: word): word {
    Pow2Word();
    XorBound(a, b, 64);
    XorBits(a, b)
  }

  lemma XorZeroWord(a: word)
    ensures Xor(a, 0) == a
  {
    XorZero(a);
  }

  lemma XorUndo(a: nat, b: nat)
    ensures XorBits(XorBits(a, b), b) == a
  {
    XorAssociative(a, b, b);
    XorSelf(b);
    XorZero(a);
  }

  /** (w >> c) | (w << (64 - c)): the c low bits move to the top. */
  function RotR(w: word, c: nat): word
    requires 0 < c < 64
  {
    SplitWord(w, c);
    MulBelow(w % Pow2(c), Pow2(c), Pow2(64 - c));
    w / Pow2(c) + w % Pow2(c) * Pow2(64 - c)
  }

  lemma MulBelow(r: nat, p: nat, q: nat)
    requires r < p
    ensures r * q + q <= p * q
  {
    var d := p - r - 1;
    NonNegative(d, q);
    Distribute(r, 1, q);
    Distribute(r + 1, d, q);
  }

  lemma MultipleFar(d: int, p: nat)
    ensures d >= 0 ==> d * p >= 0
    ensures d > 0 ==> d * p >= p
    ensures d < 0 ==> d * p <= -(p as int)
  {
    if d > 0 {
      NonNegative(d - 1, p);
      Distribute(d - 1, 1, p);
    } else if d < 0 {
      NonNegative(-d - 1, p);
      Distribute(d + 1, -d - 1, p);
      Distribute(d, 1, p);
    }
  }

  /** Quotient and remainder of a number given in mixed form. */
  lemma DivModUnique(q: nat, r: nat, p: nat)
    requires r < p
    ensures (q * p + r) / p == q && (q * p + r) % p == r
  {
    var x := q * p + r;
    var d := x / p - q;
    assert d * p == x / p * p - q * p;
    assert x == x / p * p + x % p;
    MultipleFar(d, p);
  }

  lemma QuotientBelow(w: nat, p: nat, q: nat)
    requires p > 0 && w < p * q
    ensures w / p < q && w == w / p * p + w % p
  {
    var d := w / p - q;
    assert d * p == w / p * p - q * p;
    MultipleFar(d, p);
  }

  /** The two halves that a rotation by c swaps. */
  lemma SplitWord(w: word, c: nat)
    requires 0 < c < 64
    ensures w / Pow2(c) < Pow2(64 - c)
    ensures w == w / Pow2(c) * Pow2(c) + w % Pow2(c)
    ensures Pow2(c) * Pow2(64 - c) == TWO_64
  {
    hide Pow2;
    Pow2Sum(c, 64 - c);
    Pow2Word();
    QuotientBelow(w, Pow2(c), Pow2(64 - c));
  }

  /** Rotating by c and then by 64 - c is the identity. */
  lemma RotInverse(w: word, c: nat)
    requires 0 < c < 64
    ensures RotR(RotR(w, c), 64 - c) == w
  {
    hide Pow2;
    SplitWord(w, c);
    DivModUnique(w % Pow2(c), w / Pow2(c), Pow2(64 - c));
  }

  /** a without its n low bits, and those n bits. */
  function High(a: nat, n: nat): nat
    decreases n
  {
    if n == 0 then a else High(a / 2, n - 1)
  }

  function Low(a: nat, n: nat): nat
    decreases n
  {
    if n == 0 then 0 else 2 * Low(a / 2, n - 1) + a % 2
  }

  lemma HighLowStep(a: nat, n: nat)
    requires n > 0
    ensures High(a, n) == High(a / 2, n - 1) && Low(a, n) == 2 * Low(a / 2, n - 1) + a % 2
  {
  }

  lemma HighLowNone(a: nat)
    ensures High(a, 0) == a && Low(a, 0) == 0
  {
  }

  lemma {:induction false} HighLow(a: nat, n: nat)
    ensures Low(a, n) < Pow2(n) && a == High(a, n) * Pow2(n) + Low(a, n)
    decreases n
  {
    hide Pow2, High, Low;
    if n == 0 {
      HighLowNone(a);
      Pow2Zero();
    } else {
      HighLow(a / 2, n - 1);
      HighLowStep(a, n);
      Pow2Step(n);
      Twice(High(a, n), Pow2(n - 1));
    }
  }

  lemma HighLowDivMod(a: nat, n: nat)
    ensures High(a, n) == a / Pow2(n) && Low(a, n) == a % Pow2(n)
  {
    HighLow(a, n);
    DivModUnique(High(a, n), Low(a, n), Pow2(n));
  }

  /** Exclusive or acts on high and low bits separately. */
  lemma {:induction false} XorHigh(a: nat, b: nat, n: nat)
    ensures High(XorBits(a, b), n) == XorBits(High(a, n), High(b, n))
    decreases n
  {
    hide XorBits;
    if n == 0 {
    } else {
      XorHigh(a / 2, b / 2, n - 1);
      XorStep(a, b);
    }
  }

  lemma {:induction false} XorLow(a: nat, b: nat, n: nat)
    ensures Low(XorBits(a, b), n) == XorBits(Low(a, n), Low(b, n))
    decreases n
  {
    hide XorBits, Low;
    if n == 0 {
      XorZero(0);
      HighLowNone(a);
      HighLowNone(b);
      HighLowNone(XorBits(a, b));
    } else {
      XorLow(a / 2, b / 2, n - 1);
      XorStep(a, b);
      XorOfHalves(a % 2, Low(a / 2, n - 1), b % 2, Low(b / 2, n - 1));
      Parity(a, b);
      HighLowStep(a, n);
      HighLowStep(b, n);
      HighLowStep(XorBits(a, b), n);
    }
  }

  lemma XorOfHalves(s: nat, x: nat, t: nat, y: nat)
    requires s < 2 && t < 2
    ensures XorBits(2 * x + s, 2 * y + t) == 2 * XorBits(x, y) + (s + t) % 2
  {
    hide XorBits;
    XorStep(2 * x + s, 2 * y + t);
    Halve(x, s);
    Halve(y, t);
    Parity(2 * x + s, 2 * y + t);
    Parity(s, t);
    HalfAndBit(XorBits(2 * x + s, 2 * y + t));
  }

  lemma {:induction false} XorCommutative(a: nat, b: nat)
    ensures XorBits(a, b) == XorBits(b, a)
  {
    if a == 0 && b == 0 {
    } else {
      XorCommutative(a / 2, b / 2);
    }
  }

  lemma XorSwap(p: nat, q: nat, r: nat, s: nat)
    ensures XorBits(XorBits(p, q), XorBits(r, s)) == XorBits(XorBits(p, r), XorBits(q, s))
  {
    hide XorBits;
    XorAssociative(p, q, XorBits(r, s));
    XorAssociative(q, r, s);
    XorCommutative(q, r);
    XorAssociative(r, q, s);
    XorAssociative(p, r, XorBits(q, s));
  }

  lemma {:induction false} XorShift(a: nat, b: nat, n: nat)
    ensures XorBits(a * Pow2(n), b * Pow2(n)) == XorBits(a, b) * Pow2(n)
    decreases n
  {
    hide XorBits, Pow2;
    if n == 0 {
      Pow2Zero();
    } else {
      var p := Pow2(n - 1);
      XorShift(a, b, n - 1);
      Pow2Step(n);
      Twice(a, p);
      Twice(b, p);
      Twice(XorBits(a, b), p);
      XorDoubled(a * p, b * p);
    }
  }

  lemma XorDoubled(x: nat, y: nat)
    ensures XorBits(2 * x, 2 * y) == 2 * XorBits(x, y)
  {
    hide XorBits;
    XorOfHalves(0, x, 0, y);
  }

  lemma {:induction false} HighHigh(a: nat, m: nat, n: nat)
    ensures High(High(a, m), n) == High(a, m + n)
    decreases m
  {
    if m == 0 {
    } else {
      HighHigh(a / 2, m - 1, n);
    }
  }

  /** Bit i of a number. */
  function Bit(a: nat, i: nat): nat {
    High(a, i) % 2
  }

  /** Exclusive or is bit by bit. */
  lemma XorBitAt(a: nat, b: nat, i: nat)
    ensures Bit(XorBits(a, b), i) == if Bit(a, i) == Bit(b, i) then 0 else 1
  {
    hide XorBits, High;
    XorHigh(a, b, i);
    XorStep(High(a, i), High(b, i));
    Parity(High(a, i), High(b, i));
  }

  lemma BitStep(a: nat, i: nat)
    ensures Bit(a, 0) == a % 2 && (i > 0 ==> Bit(a, i) == Bit(a / 2, i - 1))
  {
  }

  lemma {:induction false} BitOfJoined(hi: nat, lo: nat, m: nat, i: nat)
    requires lo < Pow2(m)
    ensures Bit(hi * Pow2(m) + lo, i) == if i < m then Bit(lo, i) else Bit(hi, i - m)
    decreases m
  {
    hide Bit, Pow2;
    if m == 0 {
      Pow2Zero();
    } else {
      var p := Pow2(m - 1);
      var x := hi * p + lo / 2;
      Pow2Step(m);
      Twice(hi, p);
      NonNegative(hi, p);
      assert hi * Pow2(m) + lo == 2 * x + lo % 2;
      Halve(x, lo % 2);
      BitStep(2 * x + lo % 2, i);
      BitStep(lo, i);
      if i > 0 {
        BitOfJoined(hi, lo / 2, m - 1, i - 1);
      }
    }
  }

  /** RotR rotates: bit i of the result is bit i + c of the word, counting round. */
  lemma RotRBits(w: word, c: nat, i: nat)
    requires 0 < c < 64 && i < 64
    ensures Bit(RotR(w, c), i) == Bit(w, (i + c) % 64)
  {
    hide Bit, Pow2;
    SplitWord(w, c);
    BitOfJoined(w % Pow2(c), w / Pow2(c), 64 - c, i);
    if i < 64 - c {
      BitOfJoined(w / Pow2(c), w % Pow2(c), c, i + c);
    } else {
      BitOfJoined(w / Pow2(c), w % Pow2(c), c, i + c - 64);
    }
  }
}

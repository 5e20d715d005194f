/** The CashAddr checksum register of src/import/cashaddr.c and what it detects. */
module Checksum {
  import opened Bytes
  import opened Word64

  /** A register value; the C code keeps its forty bits in a uint64_t. */
  type register = r: int | 0 <= r < 0x100_0000_0000

  lemma Shift35()
    ensures Pow2(5) == 32 && Pow2(35) == 0x8_0000_0000 && Pow2(40) == 0x100_0000_0000
  {
    assert Pow2(5) == 32;
    Pow2Sum(5, 5);
    Pow2Sum(10, 10);
    Pow2Sum(20, 5);
    Pow2Sum(25, 10);
    Pow2Sum(35, 5);
  }

  function Xor(a: register, b: register): register {
    Shift35();
    XorBound(a, b, 40);
    XorBits(a, b)
  }

  function Select(bit: nat, gen: register): register {
    if bit % 2 == 1 then gen else 0
  }

  /** The five generator masks, chosen by the five bits shifted out. */
  function Feedback(b: nat): register {
    Xor(Xor(Xor(Xor(Select(b, 0x98f2bc8e61), Select(High(b, 1), 0x79b76d99e2)), Select(High(b, 2), 0xf33e5fb3c4)),
            Select(High(b, 3), 0xae2eabe2a8)), Select(High(b, 4), 0x1e4f43e470))
  }

  /** (pre & 0x07ffffffff) << 5 */
  function Shifted(pre: register): register {
    Shift35();
    HighLow(pre, 35);
    Low(pre, 35) * 32
  }

  /** cashaddr_polymod_step: one shift of the register over GF(32). */
  function Step(pre: register): register {
    Xor(Shifted(pre), Feedback(High(pre, 35) % 256))
  }

  lemma TopBits(a: register)
    ensures High(a, 35) < 32
    ensures a == High(a, 35) * 0x8_0000_0000 + Low(a, 35)
  {
    Shift35();
    HighLow(a, 35);
  }

  lemma XorWithItselfOrZero(g: register)
    ensures Xor(g, g) == 0 && Xor(g, 0) == g && Xor(0, g) == g && Xor(0, 0) == 0
  {
    hide XorBits;
    XorSelf(g);
    XorZero(g);
    XorCommutative(0, g);
    XorZero(0);
  }

  lemma SelectLinear(x: nat, y: nat, gen: register)
    ensures Select(XorBits(x, y), gen) == Xor(Select(x, gen), Select(y, gen))
  {
    hide XorBits, Xor;
    XorParity(x, y);
    XorWithItselfOrZero(gen);
  }

  lemma XorParity(x: nat, y: nat)
    ensures XorBits(x, y) % 2 == (if x % 2 == y % 2 then 0 else 1)
  {
    hide XorBits;
    XorStep(x, y);
  }

  lemma FeedbackLinear(x: nat, y: nat)
    ensures Feedback(XorBits(x, y)) == Xor(Feedback(x), Feedback(y))
  {
    hide Select, XorBits;
    var a, b := Select(x, 0x98f2bc8e61), Select(y, 0x98f2bc8e61);
    var c, d := Select(High(x, 1), 0x79b76d99e2), Select(High(y, 1), 0x79b76d99e2);
    var e, f := Select(High(x, 2), 0xf33e5fb3c4), Select(High(y, 2), 0xf33e5fb3c4);
    var g, h := Select(High(x, 3), 0xae2eabe2a8), Select(High(y, 3), 0xae2eabe2a8);
    var i, j := Select(High(x, 4), 0x1e4f43e470), Select(High(y, 4), 0x1e4f43e470);
    SelectLinear(x, y, 0x98f2bc8e61);
    XorHigh(x, y, 1);
    SelectLinear(High(x, 1), High(y, 1), 0x79b76d99e2);
    XorHigh(x, y, 2);
    SelectLinear(High(x, 2), High(y, 2), 0xf33e5fb3c4);
    XorHigh(x, y, 3);
    SelectLinear(High(x, 3), High(y, 3), 0xae2eabe2a8);
    XorHigh(x, y, 4);
    SelectLinear(High(x, 4), High(y, 4), 0x1e4f43e470);
    XorSwap(a, b, c, d);
    XorSwap(Xor(a, c), Xor(b, d), e, f);
    XorSwap(Xor(Xor(a, c), e), Xor(Xor(b, d), f), g, h);
    XorSwap(Xor(Xor(Xor(a, c), e), g), Xor(Xor(Xor(b, d), f), h), i, j);
  }

  /** The step is linear over exclusive or. */
  lemma StepLinear(a: register, b: register)
    ensures Step(Xor(a, b)) == Xor(Step(a), Step(b))
  {
    hide Feedback, XorBits, High, Low;
    Shift35();
    XorLow(a, b, 35);
    XorShift(Low(a, 35), Low(b, 35), 5);
    XorHigh(a, b, 35);
    TopBits(a);
    TopBits(b);
    TopBits(Xor(a, b));
    FeedbackLinear(High(a, 35), High(b, 35));
    XorSwap(Shifted(a), Shifted(b), Feedback(High(a, 35)), Feedback(High(b, 35)));
  }

  lemma LowFive(g: nat)
    ensures Low(g, 5) == g % 32
  {
    hide Pow2, Low, High;
    Shift35();
    HighLowDivMod(g, 5);
  }

  lemma SelectLow(bit: nat, gen: register)
    ensures Low(Select(bit, gen), 5) == bit % 2 * (gen % 32)
  {
    hide Low;
    LowFive(gen);
    LowFive(0);
  }

  lemma AddBit(acc: nat, bit: nat, n: nat)
    requires acc < Pow2(n) && bit < 2
    ensures XorBits(acc, bit * Pow2(n)) == acc + bit * Pow2(n) < Pow2(n + 1)
  {
    hide XorBits;
    XorCommutative(acc, bit * Pow2(n));
    XorDisjoint(bit, acc, n);
  }

  lemma HighHalves(b: nat)
    ensures High(b, 1) == b / 2 && High(b, 2) == b / 2 / 2
    ensures High(b, 3) == b / 2 / 2 / 2 && High(b, 4) == b / 2 / 2 / 2 / 2
  {
  }

  lemma FiveBits(b: nat)
    requires b < 32
    ensures b == b % 2 + 2 * (High(b, 1) % 2) + 4 * (High(b, 2) % 2) + 8 * (High(b, 3) % 2) + 16 * (High(b, 4) % 2)
  {
    hide High;
    HighHalves(b);
    var c := b / 2;
    var d := c / 2;
    var e := d / 2;
    var f := e / 2;
    assert b == 2 * c + b % 2;
    assert c == 2 * d + c % 2;
    assert d == 2 * e + d % 2;
    assert e == 2 * f + e % 2;
    assert f % 2 == f;
  }

  lemma FiveXor(b0: nat, b1: nat, b2: nat, b3: nat, b4: nat)
    requires b0 < 2 && b1 < 2 && b2 < 2 && b3 < 2 && b4 < 2
    ensures XorBits(XorBits(XorBits(XorBits(b0, 2 * b1), 4 * b2), 8 * b3), 16 * b4) == b0 + 2 * b1 + 4 * b2 + 8 * b3 + 16 * b4
  {
    hide XorBits;
    assert Pow2(1) == 2 && Pow2(2) == 4 && Pow2(3) == 8 && Pow2(4) == 16;
    AddBit(b0, b1, 1);
    AddBit(b0 + 2 * b1, b2, 2);
    AddBit(b0 + 2 * b1 + 4 * b2, b3, 3);
    AddBit(b0 + 2 * b1 + 4 * b2 + 8 * b3, b4, 4);
  }

  /** The low five bits of the feedback are the five bits that chose it. */
  lemma FeedbackLowBits(b: nat)
    requires b < 32
    ensures Low(Feedback(b), 5) == b
  {
    hide XorBits, Low, High, Select;
    var s0, s1 := Select(b, 0x98f2bc8e61), Select(High(b, 1), 0x79b76d99e2);
    var s2, s3, s4 := Select(High(b, 2), 0xf33e5fb3c4), Select(High(b, 3), 0xae2eabe2a8), Select(High(b, 4), 0x1e4f43e470);
    SelectLow(b, 0x98f2bc8e61);
    SelectLow(High(b, 1), 0x79b76d99e2);
    SelectLow(High(b, 2), 0xf33e5fb3c4);
    SelectLow(High(b, 3), 0xae2eabe2a8);
    SelectLow(High(b, 4), 0x1e4f43e470);
    XorLow(s0, s1, 5);
    XorLow(Xor(s0, s1), s2, 5);
    XorLow(Xor(Xor(s0, s1), s2), s3, 5);
    XorLow(Xor(Xor(Xor(s0, s1), s2), s3), s4, 5);
    FiveXor(b % 2, High(b, 1) % 2, High(b, 2) % 2, High(b, 3) % 2, High(b, 4) % 2);
    FiveBits(b);
  }

  lemma LowOfShifted(a: register)
    ensures Low(Shifted(a), 5) == 0
  {
    hide High, Low;
    Shift35();
    HighLowDivMod(Shifted(a), 5);
    assert Low(a, 35) * 32 % 32 == 0;
  }

  /** The five bits shifted out come back as the low five bits of the result. */
  lemma StepLowBits(a: register)
    ensures Low(Step(a), 5) == High(a, 35)
  {
    hide XorBits, Feedback, Shifted, High, Low;
    TopBits(a);
    var h := High(a, 35);
    XorLow(Shifted(a), Feedback(h), 5);
    LowOfShifted(a);
    FeedbackLowBits(h);
    XorWithItselfOrZero(h);
  }

  /** No two register contents step to the same contents. */
  lemma StepInjective(a: register, b: register)
    requires Step(a) == Step(b)
    ensures a == b
  {
    StepLowBits(a);
    StepLowBits(b);
    hide Feedback, XorBits, High, Low;
    TopBits(a);
    TopBits(b);
    XorUndo(Shifted(a), Feedback(High(a, 35)));
    XorUndo(Shifted(b), Feedback(High(b, 35)));
  }

  lemma FeedbackNone()
    ensures Feedback(0) == 0
  {
    hide XorBits;
    assert High(0, 1) == 0 && High(0, 2) == 0 && High(0, 3) == 0 && High(0, 4) == 0;
    XorZero(0);
  }

  /** With nothing shifted out the step only shifts. */
  lemma StepShifts(a: register)
    requires a < 0x8_0000_0000
    ensures Step(a) == a * 32
  {
    hide XorBits, Feedback, High, Low;
    Shift35();
    HighLowDivMod(a, 35);
    FeedbackNone();
    XorWithItselfOrZero(Shifted(a));
  }

  /** Feeding symbols one by one: step, then exclusive or the symbol in. */
  function Fold(c: register, xs: seq<byte>): register {
    if xs == [] then c else Xor(Step(Fold(c, xs[..|xs| - 1])), xs[|xs| - 1])
  }

  predicate AreSymbols(xs: seq<byte>) {
    forall i :: 0 <= i < |xs| ==> xs[i] < 32
  }

  lemma {:induction false} FoldAppend(c: register, xs: seq<byte>, ys: seq<byte>)
    ensures Fold(c, xs + ys) == Fold(Fold(c, xs), ys)
  {
    hide Step, Xor;
    if ys == [] {
      assert xs + ys == xs;
    } else {
      var n := |ys| - 1;
      FoldAppend(c, xs, ys[..n]);
      assert (xs + ys)[..|xs| + n] == xs + ys[..n];
    }
  }

  /** The start value and the symbols contribute independently. */
  lemma {:induction false} FoldLinear(c: register, xs: seq<byte>)
    ensures Fold(c, xs) == Xor(Fold(c, Zeros(|xs|)), Fold(0, xs))
  {
    hide Step, Xor;
    if xs == [] {
      XorWithItselfOrZero(c);
    } else {
      var n := |xs| - 1;
      var f, g := Fold(c, Zeros(n)), Fold(0, xs[..n]);
      FoldLinear(c, xs[..n]);
      StepLinear(f, g);
      assert Zeros(n + 1)[..n] == Zeros(n);
      XorWithItselfOrZero(xs[n]);
      XorSwapRegisters(Step(f), Step(g), 0, xs[n]);
    }
  }

  lemma XorSwapRegisters(p: register, q: register, r: register, s: register)
    ensures Xor(Xor(p, q), Xor(r, s)) == Xor(Xor(p, r), Xor(q, s))
  {
    hide XorBits;
    XorSwap(p, q, r, s);
  }

  lemma {:induction false} FoldInjective(a: register, b: register, xs: seq<byte>)
    requires Fold(a, xs) == Fold(b, xs)
    ensures a == b
  {
    hide Step, XorBits;
    if xs == [] {
    } else {
      var n := |xs| - 1;
      var f, g := Fold(a, xs[..n]), Fold(b, xs[..n]);
      XorUndo(Step(f), xs[n]);
      XorUndo(Step(g), xs[n]);
      StepInjective(f, g);
      FoldInjective(a, b, xs[..n]);
    }
  }

  /** Symbols read as one base-32 number. */
  function Number(xs: seq<byte>): nat {
    if xs == [] then 0 else 32 * Number(xs[..|xs| - 1]) + xs[|xs| - 1]
  }

  lemma {:induction false} NumberBound(xs: seq<byte>)
    requires AreSymbols(xs)
    ensures Number(xs) < Pow2(5 * |xs|)
  {
    if xs == [] {
    } else {
      NumberBound(xs[..|xs| - 1]);
      Pow2Sum(5, 5 * (|xs| - 1));
    }
  }

  lemma {:induction false} NumberInjective(xs: seq<byte>, ys: seq<byte>)
    requires AreSymbols(xs) && AreSymbols(ys) && |xs| == |ys| && Number(xs) == Number(ys)
    ensures xs == ys
  {
    if xs == [] {
    } else {
      NumberInjective(xs[..|xs| - 1], ys[..|ys| - 1]);
      assert xs == xs[..|xs| - 1] + [xs[|xs| - 1]] && ys == ys[..|ys| - 1] + [ys[|ys| - 1]];
    }
  }

  /** Up to eight symbols fed into an empty register just pack into its forty bits. */
  lemma {:induction false} FoldPacks(xs: seq<byte>)
    requires AreSymbols(xs) && |xs| <= 8
    ensures Fold(0, xs) == Number(xs)
  {
    hide Step, XorBits;
    if xs == [] {
    } else {
      var n := |xs| - 1;
      FoldPacks(xs[..n]);
      NumberBound(xs[..n]);
      Pow2Monotone(5 * n, 35);
      Shift35();
      StepShifts(Number(xs[..n]));
      XorDisjoint(Number(xs[..n]), xs[n], 5);
    }
  }

  /** A NUL-terminated prefix as the checksum sees it: five bits a character, then the zero separator. */
  function Header(prefix: seq<byte>): seq<byte> {
    seq(|prefix|, i requires 0 <= i < |prefix| => prefix[i] % 32) + [0]
  }

  /** The register after prefix, separator and payload. */
  function Absorbed(prefix: seq<byte>, payload: seq<byte>): register {
    Fold(Fold(1, Header(prefix)), payload)
  }

  /** PolyMod: prefix is the C string's memory, ending at its first NUL. */
  method PolyMod(prefix: seq<byte>, payload: seq<byte>) returns (c: register)
    requires 0 in prefix
    ensures exists n :: 0 <= n < |prefix| && prefix[n] == 0 && 0 !in prefix[..n] &&
                        c == Xor(Fold(Absorbed(prefix[..n], payload), Zeros(8)), 1)
  {
    hide Step, Xor;
    c := 1;
    var n := 0;
    while prefix[n] != 0
      invariant 0 <= n < |prefix| && 0 in prefix[n..] && 0 !in prefix[..n]
      invariant c == Fold(1, Header(prefix[..n])[..n])
      decreases |prefix| - n
    {
      assert Header(prefix[..n + 1])[..n + 1][..n] == Header(prefix[..n])[..n];
      c := Xor(Step(c), prefix[n] % 32);
      n := n + 1;
    }
    XorWithItselfOrZero(Step(c));
    c := Step(c);
    ghost var start := c;
    assert start == Fold(1, Header(prefix[..n]));
    var i := 0;
    while i < |payload|
      invariant 0 <= i <= |payload| && c == Fold(start, payload[..i])
    {
      assert payload[..i + 1][..i] == payload[..i];
      c := Xor(Step(c), payload[i]);
      i := i + 1;
    }
    assert payload[..i] == payload;
    ghost var body := c;
    i := 0;
    while i < 8
      invariant 0 <= i <= 8 && c == Fold(body, Zeros(i))
    {
      assert Zeros(i + 1)[..i] == Zeros(i);
      XorWithItselfOrZero(Step(c));
      c := Step(c);
      i := i + 1;
    }
    c := Xor(c, 1);
  }

  /** The n low five-bit groups of a number, most significant first. */
  function Digits(m: nat, n: nat): (d: seq<byte>)
    ensures |d| == n && AreSymbols(d)
    decreases n
  {
    HighLow(m, 5);
    Shift35();
    if n == 0 then [] else Digits(High(m, 5), n - 1) + [Low(m, 5)]
  }

  lemma {:induction false} NumberOfDigits(m: nat, n: nat)
    requires m < Pow2(5 * n)
    ensures Number(Digits(m, n)) == m
    decreases n
  {
    hide High, Low, Pow2;
    if n == 0 {
      Pow2Zero();
    } else {
      Pow2Sum(5, 5 * (n - 1));
      Shift35();
      HighLow(m, 5);
      NumberOfDigits(High(m, 5), n - 1);
    }
  }

  lemma {:induction false} DigitsAt(m: nat, n: nat, i: nat)
    requires i < n
    ensures Digits(m, n)[i] == Low(High(m, 5 * (n - 1 - i)), 5)
    decreases n
  {
    hide Low;
    if i == n - 1 {
    } else {
      DigitsAt(High(m, 5), n - 1, i);
      HighHigh(m, 5, 5 * (n - 2 - i));
    }
  }

  /** The eight checksum symbols of a payload under the prefix "kaspa". */
  const KASPA: seq<byte> := [0x6b, 0x61, 0x73, 0x70, 0x61]

  function ChecksumSymbols(payload: seq<byte>): (d: seq<byte>)
    ensures |d| == 8 && AreSymbols(d)
  {
    Digits(Xor(Fold(Absorbed(KASPA, payload), Zeros(8)), 1), 8)
  }

  /** create_checksum. */
  method CreateChecksum(payload: seq<byte>, checksum: array<byte>)
    requires checksum.Length == 8
    modifies checksum
    ensures checksum[..] == ChecksumSymbols(payload)
  {
    hide Xor, Fold, Absorbed, Low, High, Digits;
    var prefix: seq<byte> := KASPA + [0];
    var mod := PolyMod(prefix, payload);
    assert forall n :: 0 <= n < |prefix| && prefix[n] == 0 ==> prefix[..n] == KASPA;
    var i := 0;
    while i < 8
      invariant 0 <= i <= 8 && checksum[..i] == Digits(mod, 8)[..i]
    {
      DigitsAt(mod, 8, i);
      HighLow(High(mod, 5 * (7 - i)), 5);
      Shift35();
      checksum[i] := Low(High(mod, 5 * (7 - i)), 5);
      i := i + 1;
    }
    assert checksum[..8] == checksum[..];
  }

  /** A codeword: payload and checksum leave the register at 1. */
  predicate IsCodeword(xs: seq<byte>) {
    AreSymbols(xs) && Absorbed(KASPA, xs) == 1
  }

  /** The emitted checksum always verifies. */
  lemma ChecksumIsValid(payload: seq<byte>)
    requires AreSymbols(payload)
    ensures IsCodeword(payload + ChecksumSymbols(payload))
  {
    hide Fold, Number, XorBits, Header, Digits;
    var c := Absorbed(KASPA, payload);
    var f := Fold(c, Zeros(8));
    var mod, d := Xor(f, 1), ChecksumSymbols(payload);
    FoldAppend(Fold(1, Header(KASPA)), payload, d);
    FoldLinear(c, d);
    FoldPacks(d);
    Shift35();
    NumberOfDigits(mod, 8);
    XorCommutes(f, 1);
    XorUndo(1, f);
    XorCommutes(f, mod);
  }

  lemma XorCommutes(a: register, b: register)
    ensures Xor(a, b) == Xor(b, a)
  {
    XorCommutative(a, b);
  }

  /** Two codewords that agree outside eight consecutive symbols are equal. */
  lemma BurstDetected(xs: seq<byte>, ys: seq<byte>, k: nat)
    requires IsCodeword(xs) && IsCodeword(ys) && |xs| == |ys| && k + 8 <= |xs|
    requires xs[..k] == ys[..k] && xs[k + 8..] == ys[k + 8..]
    ensures xs == ys
  {
    hide Fold, Number, XorBits, Header;
    var start, v, w, tail := Fold(1, Header(KASPA)), xs[k..k + 8], ys[k..k + 8], xs[k + 8..];
    assert xs == xs[..k] + v + tail && ys == xs[..k] + w + tail;
    FoldAppend(start, xs[..k] + v, tail);
    FoldAppend(start, xs[..k] + w, tail);
    FoldInjective(Fold(start, xs[..k] + v), Fold(start, xs[..k] + w), tail);
    FoldAppend(start, xs[..k], v);
    FoldAppend(start, xs[..k], w);
    var c := Fold(start, xs[..k]);
    FoldLinear(c, v);
    FoldLinear(c, w);
    var z := Fold(c, Zeros(8));
    XorCommutes(z, Fold(0, v));
    XorCommutes(z, Fold(0, w));
    XorUndo(Fold(0, v), z);
    XorUndo(Fold(0, w), z);
    FoldPacks(v);
    FoldPacks(w);
    NumberInjective(v, w);
  }
}

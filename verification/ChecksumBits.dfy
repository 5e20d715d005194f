/** The checksum step on machine words, as it is written, is the step on numbers. */
module ChecksumBits {
  import opened Bytes
  import opened Word64
  import opened BitVectors
  import opened Checksum

  const LOW_35: bv64 := 0x7_ffff_ffff
  const ALL_40: bv64 := 0xff_ffff_ffff

  function Chosen(b: bv64, mask: bv64): bv64 {
    if b & 1 == 1 then mask else 0
  }

  function FeedbackB(b: bv64): bv64 {
    XorB(XorB(XorB(XorB(Chosen(b, 0x98f2bc8e61), Chosen(b >> 1, 0x79b76d99e2)), Chosen(b >> 2, 0xf33e5fb3c4)),
              Chosen(b >> 3, 0xae2eabe2a8)), Chosen(b >> 4, 0x1e4f43e470))
  }

  /** cashaddr_polymod_step as it is written, on machine words. */
  function StepB(x: bv64): bv64 {
    XorB(And(x, LOW_35) << 5, FeedbackB(x >> 35))
  }

  lemma MaskOnes()
    ensures Ones(LOW_35, 35)
  {
    assert Ones(0x1f, 5);
    OnesFive(0x3ff, 5);
    OnesFive(0x7fff, 10);
    OnesFive(0xf_ffff, 15);
    OnesFive(0x1ff_ffff, 20);
    OnesFive(0x3fff_ffff, 25);
    OnesFive(LOW_35, 30);
  }

  lemma MaskBound(x: bv64)
    ensures And(x, LOW_35) <= 0x7_ffff_ffff
  {
  }

  lemma ShiftAgrees(x: bv64)
    ensures Low(Nat(x, 40), 35) * 32 == Nat(And(x, LOW_35) << 5, 40)
  {
    hide Nat, And, Low;
    NatLow(x, 40, 35);
    MaskOnes();
    NatMasked(x, LOW_35, 35);
    MaskBound(x);
    NatLeft(And(x, LOW_35), 35);
  }

  /** One of the five masks, on both sides. */
  lemma ChosenAgrees(b: bv64, i: nat, mask: bv64, gen: register)
    requires i < 5 && Nat(mask, 40) == gen
    ensures Select(High(Nat(b, 5), i), gen) == Nat(Chosen(Right(b, i), mask), 40)
  {
    hide Nat, High, Bit0, Half, Pow2;
    NatHigh(b, 5 - i, i);
    NatStep(Right(b, i), 5 - i);
    BitChooses(Right(b, i), mask);
    ZeroNat(40);
  }

  lemma BitChooses(b: bv64, mask: bv64)
    ensures Chosen(b, mask) == if Bit0(b) == 1 then mask else 0
  {
  }

  lemma {:induction false} ZeroNat(n: nat)
    ensures Nat(0, n) == 0
  {
    if n == 0 {
    } else {
      assert Half(0) == 0 && Bit0(0) == 0;
      ZeroNat(n - 1);
    }
  }

  lemma MaskValue0()
    ensures Nat(0x98f2bc8e61, 40) == 0x98f2bc8e61
  {
    hide Nat;
    NatForty(0x98f2bc8e61);
  }

  lemma MaskValue1()
    ensures Nat(0x79b76d99e2, 40) == 0x79b76d99e2
  {
    hide Nat;
    NatForty(0x79b76d99e2);
  }

  lemma MaskValue2()
    ensures Nat(0xf33e5fb3c4, 40) == 0xf33e5fb3c4
  {
    hide Nat;
    NatForty(0xf33e5fb3c4);
  }

  lemma MaskValue3()
    ensures Nat(0xae2eabe2a8, 40) == 0xae2eabe2a8
  {
    hide Nat;
    NatForty(0xae2eabe2a8);
  }

  lemma MaskValue4()
    ensures Nat(0x1e4f43e470, 40) == 0x1e4f43e470
  {
    hide Nat;
    NatForty(0x1e4f43e470);
  }

  function R(x: bv64): register {
    hide Nat;
    Checksum.Shift35();
    Nat(x, 40)
  }

  lemma FewShifts(b: bv64)
    ensures Right(b, 0) == b && Right(b, 1) == b >> 1 && Right(b, 2) == b >> 2 && Right(b, 3) == b >> 3
    ensures Right(b, 4) == b >> 4
  {
    assert b >> 1 >> 1 == b >> 2 && b >> 2 >> 1 == b >> 3 && b >> 3 >> 1 == b >> 4;
    assert Right(b >> 3, 1) == b >> 4;
    assert Right(b >> 2, 2) == b >> 4 && Right(b >> 2, 1) == b >> 3;
    assert Right(b >> 1, 3) == b >> 4 && Right(b >> 1, 2) == b >> 3 && Right(b >> 1, 1) == b >> 2;
  }

  lemma FeedbackAgrees(b: bv64)
    ensures Feedback(Nat(b, 5)) == R(FeedbackB(b))
  {
    hide Nat, High, Chosen, Select, XorBits, Right, XorB;
    FewShifts(b);
    MaskValue0();
    MaskValue1();
    MaskValue2();
    MaskValue3();
    MaskValue4();
    FirstChosen(b);
    ChosenAgrees(b, 1, 0x79b76d99e2, 0x79b76d99e2);
    ChosenAgrees(b, 2, 0xf33e5fb3c4, 0xf33e5fb3c4);
    ChosenAgrees(b, 3, 0xae2eabe2a8, 0xae2eabe2a8);
    ChosenAgrees(b, 4, 0x1e4f43e470, 0x1e4f43e470);
    var c0, c1, c2 := Chosen(b, 0x98f2bc8e61), Chosen(b >> 1, 0x79b76d99e2), Chosen(b >> 2, 0xf33e5fb3c4);
    var c3, c4 := Chosen(b >> 3, 0xae2eabe2a8), Chosen(b >> 4, 0x1e4f43e470);
    NatXor(c0, c1, 40);
    NatXor(XorB(c0, c1), c2, 40);
    NatXor(XorB(XorB(c0, c1), c2), c3, 40);
    NatXor(XorB(XorB(XorB(c0, c1), c2), c3), c4, 40);
  }

  lemma FirstChosen(b: bv64)
    ensures Select(Nat(b, 5), 0x98f2bc8e61) == Nat(Chosen(b, 0x98f2bc8e61), 40)
  {
    hide Nat, Chosen, Select;
    MaskValue0();
    ChosenAgrees(b, 0, 0x98f2bc8e61, 0x98f2bc8e61);
    HighLowNone(Nat(b, 5));
    FewShifts(b);
  }

  lemma TopFive(x: bv64)
    ensures High(Nat(x, 40), 35) == Nat(x >> 35, 5) < 32
  {
    hide Nat, High, Right, Half, Bit0;
    NatHigh(x, 5, 35);
    BitVectors.Shift35(x);
    assert Pow2(5) == 32;
  }

  lemma TopAgrees(x: bv64)
    ensures Feedback(High(Nat(x, 40), 35) % 256) == R(FeedbackB(x >> 35))
  {
    hide Nat, High, Feedback, FeedbackB, R, Pow2;
    TopFive(x);
    FeedbackAgrees(x >> 35);
  }

  /** The step on numbers is the step as it is written. */
  lemma StepAgrees(x: bv64)
    ensures Step(R(x)) == R(StepB(x))
  {
    hide Nat, High, Low, Feedback, FeedbackB, XorBits, XorB, And, Right;
    ShiftAgrees(x);
    TopAgrees(x);
    NatXor(And(x, LOW_35) << 5, FeedbackB(x >> 35), 40);
  }
}

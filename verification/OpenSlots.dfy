/** What goes wrong when the last input chunk comes early and a slot is still open at the approval. */
module OpenSlots {
  import opened Bytes
  import opened Transaction
  import opened Wire
  import opened Validation
  import opened SighashSpec
  import opened SighashBinding
  import opened SessionSpec
  import opened SessionSafety
  import opened ChangeOutput
  import opened LaterApprovals
  import opened HonestSession

  // ----- signatures over something else than was approved

  /** Nothing but commands that keep the session going. */
  predicate QuietRun(dev: Device, s: Ctx, es: seq<Event>) {
    es == [] || (QuietRun(dev, s, es[..|es| - 1]) && Quiet(Run(dev, s, es[..|es| - 1]), es[|es| - 1]))
  }

  lemma {:induction false} QuietIsResetFree(dev: Device, s: Ctx, es: seq<Event>)
    requires QuietRun(dev, s, es)
    ensures NoReset(dev, s, es)
  {
    hide Resets;
    if es == [] {
    } else {
      QuietIsResetFree(dev, s, es[..|es| - 1]);
    }
  }

  /** Without another decision, all signatures from here on are over the stored transaction. */
  ghost predicate SignsOnlyStored(dev: Device, s: Ctx) {
    forall es, e ::
      IsRun(dev, s, es) && QuietRun(dev, s, es) && Quiet(Run(dev, s, es), e) && Signs(dev, Run(dev, s, es), e) ==>
        Run(dev, s, es).tx == s.tx
  }

  /** The chunk e stores another transaction, one differing in an outpoint or an output, and f gets it signed. */
  ghost predicate SwapSigned(dev: Device, s: Ctx, e: Event, f: Event) {
    hide Step, Enabled, Quiet, SameCovered;
    var t := Step(dev, s, e).0;
    ChunkSwaps(dev, s, e) && Enabled(t, f) && Quiet(t, f) && Signs(dev, t, f) &&
    IsSighashOf(dev, t.tx, Step(dev, t, f).1[0], f.env.beyond)
  }

  /** In an approved context with an open slot there are such a chunk and such a request, with no decision in between. */
  lemma SwappedIsSigned(dev: Device, s: Ctx) returns (e: Event, f: Event)
    requires MaySign(s) && s.screen == NoScreen && !FullyParsed(s)
    ensures SwapSigned(dev, s, e, f)
  {
    hide Step, FullyParsed, Signs, Quiet, Enabled, SameCovered, SigHash, Extended;
    e := OpenSlotSwaps(dev, s);
    f := NextRequest(WELL);
    var t := Step(dev, s, e).0;
    NextRequestSigns(dev, t, WELL);
    SigningStep(dev, t, f);
  }

  /** After an approval only the stored transaction is signed exactly when nothing more can be stored. */
  lemma SignsOnlyStoredIff(dev: Device, s: Ctx)
    requires MaySign(s) && s.screen == NoScreen
    ensures SignsOnlyStored(dev, s) <==> FullyParsed(s)
  {
    hide Step, FullyParsed, Signs, Quiet, Enabled, SameCovered, IsSighashOf;
    if FullyParsed(s) {
      forall es, e | IsRun(dev, s, es) && QuietRun(dev, s, es) && Quiet(Run(dev, s, es), e) && Signs(dev, Run(dev, s, es), e)
        ensures Run(dev, s, es).tx == s.tx
      {
        QuietIsResetFree(dev, s, es);
        FullyParsedFreezes(dev, s, es);
      }
    } else {
      var e, f := SwappedIsSigned(dev, s);
      QuietEvent(dev, s, e);
      assert Run(dev, s, [e]).tx != s.tx;
    }
  }

  lemma QuietEvent(dev: Device, s: Ctx, e: Event)
    requires Enabled(s, e) && Quiet(s, e)
    ensures IsRun(dev, s, [e]) && QuietRun(dev, s, [e]) && Run(dev, s, [e]) == Step(dev, s, e).0
  {
    hide Step, Enabled, Resets;
    OneStepRun(dev, s, e);
    assert [e][..0] == [];
  }

  /**
   * Over whole runs: after an approval answered with a signature, all signatures up to the next decision or reset are
   * over the approved transaction if and only if it was fully parsed when it was approved.
   */
  lemma SignedIsApprovedIff(dev: Device, maxInputs: nat, es: seq<Event>, d: nat)
    requires 1 <= maxInputs <= 255 && d < |es| && IsRun(dev, Initial(maxInputs), es)
    requires Approves(After(dev, Initial(maxInputs), es, d), es[d])
    requires MaySign(After(dev, Initial(maxInputs), es, d + 1))
    ensures var approved, t := After(dev, Initial(maxInputs), es, d), After(dev, Initial(maxInputs), es, d + 1);
            t.tx == approved.tx && (SignsOnlyStored(dev, t) <==> FullyParsed(approved))
  {
    hide Step, FullyParsed, Approves, SignsOnlyStored, Run, IsRun;
    var s := Initial(maxInputs);
    AfterStep(dev, s, es, d);
    ApprovalKeepsParsed(dev, After(dev, s, es, d), es[d]);
    SignsOnlyStoredIff(dev, After(dev, s, es, d + 1));
  }

  lemma ApprovalKeepsParsed(dev: Device, s: Ctx, e: Event)
    requires Approves(s, e)
    ensures var t := Step(dev, s, e).0;
            t.tx == s.tx && t.screen == NoScreen && (FullyParsed(t) <==> FullyParsed(s))
  {
    hide SigHash, Extended, ApduStep;
  }

  // ----- a run that gets there

  /** Two outputs, the second paying the header's change key, and two inputs; all amounts are 0. */
  function EarlyPlan(dev: Device, maxInputs: nat, h: Header, first: Input): Plan {
    Plan(h, [Output(0, SchnorrScript(Zeros(32))), Output(0, SchnorrScript(HeaderKey(dev, h)))], [first, BLANK_INPUT], maxInputs)
  }

  /** The second output with one byte too many, so that it is stored and refused, and a first input called the last. */
  function EarlyEvents(p: Plan): seq<Event>
    requires |p.outs| == 2 && |p.ins| == 2
  {
    [SignTx(P1_START, P2_MORE, EncodeHeader(p.header), WELL),
     SignTx(P1_OUTPUTS, P2_MORE, EncodeOutput(p.outs[0]), WELL),
     SignTx(P1_OUTPUTS, P2_MORE, EncodeOutput(p.outs[1]) + [0], WELL),
     SignTx(P1_INPUTS, P2_LAST, EncodeInput(p.ins[0]), WELL),
     Decision(true, WELL)]
  }

  lemma EarlySendable(dev: Device, maxInputs: nat, h: Header, first: Input)
    requires h.Valid(maxInputs) && maxInputs <= 255 && h.outputLen == 2 && h.inputLen == 2
    ensures EarlyPlan(dev, maxInputs, h, first).Sendable()
  {
    hide IsAccepted, HeaderKey;
    SchnorrAccepted(Zeros(32));
    SchnorrAccepted(HeaderKey(dev, h));
  }

  /** A chunk with a byte too many is stored, refused, and leaves the slot open. */
  lemma OverlongStays(dev: Device, s: Ctx, p: Plan)
    requires p.Sendable() && |p.outs| == 2 && Loading(s, p, 1, 0)
    ensures var e := SignTx(P1_OUTPUTS, P2_MORE, EncodeOutput(p.outs[1]) + [0], WELL);
            var t := Step(dev, s, e).0;
            Loading(t.(parsingOutput := 2), p, 2, 0) && t.parsingOutput == 1
  {
    hide ParseOutput, IsAccepted, StoredOutput, EncodeOutput;
    OverlongLands(p.outs[1]);
    assert s.tx.outputs[1] == BLANK_OUTPUT;
    assert s.tx.outputs[1 := StoredOutput(p.outs[1])] == Partial(p, 2, 0).outputs;
  }

  lemma OverlongLands(o: Output)
    requires IsAccepted(o.script)
    ensures ParseOutput(EncodeOutput(o) + [0], BLANK_OUTPUT) == (OUTPUT_ERROR, StoredOutput(o))
  {
    OutputLands(o);
    var rest, more := EncodeOutput(o), EncodeOutput(o) + [0];
    var n := FormLength(rest[8..]);
    assert more[..8] == rest[..8] && more[8..] == rest[8..] + [0];
    assert more[8..][..n] == rest[8..][..n];
  }

  /** The review comes up with one input of two and the second output slot still open. */
  predicate EarlyReview(s: Ctx, p: Plan)
    requires |p.outs| == 2 && |p.ins| == 2
  {
    s.tx == Partial(p, 2, 1) && s.reqType == CONFIRM_TRANSACTION && s.screen.TransactionScreen? &&
    s.signingIndex == 0 && s.parsingOutput == 1 && s.parsingInput == 1
  }

  lemma EarlyInputReviews(dev: Device, s: Ctx, p: Plan)
    requires p.Sendable() && |p.outs| == 2 && |p.ins| == 2 && s.parsingOutput == 1
    requires Loading(s.(parsingOutput := 2), p, 2, 0)
    requires p.outs[0].value == 0 && p.outs[1].value == 0
    requires p.outs[1].script == SchnorrScript(HeaderKey(dev, p.header))
    ensures EarlyReview(Step(dev, s, SignTx(P1_INPUTS, P2_LAST, EncodeInput(p.ins[0]), WELL)).0, p)
  {
    hide ParseInput, EncodeInput, StoredOutput, ShownFor, Covers, AllAccepted, SchnorrScript;
    InputNotEmpty(p.ins[0]);
    InputStores(s.(parsingOutput := 2), p, 0);
    var tx := Partial(p, 2, 1);
    ScriptStays(p, 1);
    KeyOfSchnorr(HeaderKey(dev, p.header));
    assert tx.outputs[1] == StoredOutput(p.outs[1]);
    NothingOut(p);
  }

  lemma KeyOfSchnorr(key: Bytes32)
    ensures SchnorrScript(key)[0] == 0x20 && SchnorrScript(key)[1..33] == key
  {
  }

  lemma NothingOut(p: Plan)
    requires p.Sendable() && |p.outs| == 2 && |p.ins| == 2 && p.outs[0].value == 0 && p.outs[1].value == 0
    ensures Partial(p, 2, 1).InBounds() && Covers(Partial(p, 2, 1).Ins(), Partial(p, 2, 1).Outs())
  {
    hide AllAccepted, StoredOutput, InTotal;
    var outs := Partial(p, 2, 1).Outs();
    StoredValue(p.outs[0]);
    StoredValue(p.outs[1]);
    assert outs == [StoredOutput(p.outs[0]), StoredOutput(p.outs[1])];
    SameOutTotals(outs, [BLANK_OUTPUT, BLANK_OUTPUT]);
    assert OutTotal([BLANK_OUTPUT, BLANK_OUTPUT][..1]) == 0;
  }

  /** The context right after the early approval: a first signature is out, and a slot of each kind is open. */
  ghost predicate EarlyApproved(dev: Device, s: Ctx, h: Header, first: Input) {
    && MaySign(s) && InSession(s, h) && s.signingIndex <= s.parsingInput && !OutputsIn(s) && !InputsIn(s) && PaysChange(dev, s.tx, h)
    && s.path == [PURPOSE, COIN_TYPE, h.account, first.addressType, first.addressIndex]
  }

  lemma EarlyApprovalSigns(dev: Device, s: Ctx, p: Plan)
    requires p.Sendable() && |p.outs| == 2 && |p.ins| == 2 && EarlyReview(s, p)
    requires p.outs[1].script == SchnorrScript(HeaderKey(dev, p.header))
    ensures Approves(s, Decision(true, WELL))
    ensures EarlyApproved(dev, Step(dev, s, Decision(true, WELL)).0, p.header, p.ins[0])
  {
    hide SigHash, StoredOutput, AllAccepted, SchnorrScript, ApduStep;
    EarlyPays(dev, p);
    assert s.tx.inputs[0] == StoredInput(p.ins[0]);
  }

  lemma EarlyPays(dev: Device, p: Plan)
    requires p.Sendable() && |p.outs| == 2 && |p.ins| == 2
    requires p.outs[1].script == SchnorrScript(HeaderKey(dev, p.header))
    ensures PaysChange(dev, Partial(p, 2, 1), p.header)
  {
    hide AllAccepted, SchnorrScript, StoredOutput, HeaderKey;
    var o := p.outs[1];
    SchnorrAccepted(HeaderKey(dev, p.header));
    StoredScript(o);
    KeyOfSchnorr(HeaderKey(dev, p.header));
    ScriptStays(p, 1);
    assert Partial(p, 2, 1).outputs[1] == StoredOutput(o);
    ClosingOpcode(StoredOutput(o).script, HeaderKey(dev, p.header));
  }

  lemma ClosingOpcode(s: ScriptBuffer, key: Bytes32)
    requires Script(s) == [0x20] + key + [OP_CHECKSIG]
    ensures s[33] == OP_CHECKSIG
  {
    assert s[33] == Script(s)[33];
  }

  /** The first three events leave the second output stored and its slot open. */
  lemma EarlyLoads(dev: Device, s: Ctx, p: Plan, es: seq<Event>)
    requires s.screen == NoScreen && |s.tx.inputs| == p.slots && p.Sendable() && |p.outs| == 2 && |p.ins| == 2
    requires es == EarlyEvents(p)
    ensures var t := Run(dev, s, es[..3]);
            IsRun(dev, s, es[..3]) && Loading(t.(parsingOutput := 2), p, 2, 0) && t.parsingOutput == 1
  {
    hide Step, Loading, Run, IsRun, AllAccepted;
    StartLoads(dev, s, p, WELL);
    FirstEvent(dev, s, es[0]);
    assert es[..1] == [es[0]];
    OutputLoads(dev, Run(dev, s, es[..1]), p, 0, WELL);
    QuietScreen(Run(dev, s, es[..1]), p, 0);
    NextOf(dev, s, es, 1);
    QuietScreen(Run(dev, s, es[..2]), p, 1);
    OverlongStays(dev, Run(dev, s, es[..2]), p);
    NextOf(dev, s, es, 2);
  }

  /** The fourth brings up the review. */
  lemma EarlyReviews(dev: Device, s: Ctx, p: Plan, es: seq<Event>)
    requires p.Sendable() && |p.outs| == 2 && |p.ins| == 2 && es == EarlyEvents(p)
    requires p.outs[0].value == 0 && p.outs[1].value == 0
    requires p.outs[1].script == SchnorrScript(HeaderKey(dev, p.header))
    requires var t := Run(dev, s, es[..3]);
             IsRun(dev, s, es[..3]) && Loading(t.(parsingOutput := 2), p, 2, 0) && t.parsingOutput == 1
    ensures IsRun(dev, s, es[..4]) && EarlyReview(Run(dev, s, es[..4]), p)
  {
    hide Step, Loading, EarlyReview, HeaderKey, Run, IsRun, AllAccepted, SchnorrScript;
    QuietScreen(Run(dev, s, es[..3]).(parsingOutput := 2), p, 2);
    EarlyInputReviews(dev, Run(dev, s, es[..3]), p);
    NextOf(dev, s, es, 3);
  }

  /** From power-up, one run reaches an approval with a slot of each kind open, in the session of any such header. */
  lemma EarlyRun(dev: Device, maxInputs: nat, h: Header, first: Input) returns (es: seq<Event>)
    requires 2 <= maxInputs <= 255 && h.Valid(maxInputs) && h.outputLen == 2 && h.inputLen == 2
    ensures IsRun(dev, Initial(maxInputs), es) && es == EarlyEvents(EarlyPlan(dev, maxInputs, h, first))
    ensures Approves(After(dev, Initial(maxInputs), es, 4), es[4])
    ensures EarlyApproved(dev, Run(dev, Initial(maxInputs), es), h, first)
  {
    hide Step, Approves, Loading, EarlyReview, EarlyApproved, HeaderKey, Run, IsRun, AllAccepted, SchnorrScript;
    var s, p := Initial(maxInputs), EarlyPlan(dev, maxInputs, h, first);
    EarlySendable(dev, maxInputs, h, first);
    es := EarlyEvents(p);
    EarlyLoads(dev, s, p, es);
    EarlyReviews(dev, s, p, es);
    OnScreen(Run(dev, s, es[..4]), p);
    EarlyApprovalSigns(dev, Run(dev, s, es[..4]), p);
    NextOf(dev, s, es, 4);
    assert es[..5] == es;
  }

  lemma FirstEvent(dev: Device, s: Ctx, e: Event)
    requires e.Apdu? && s.screen == NoScreen
    ensures IsRun(dev, s, [e]) && Run(dev, s, [e]) == Step(dev, s, e).0
  {
    hide Step;
    assert [e][..0] == [];
  }

  lemma QuietScreen(s: Ctx, p: Plan, j: nat)
    requires Loading(s, p, j, 0)
    ensures s.screen == NoScreen
  {
  }

  lemma OnScreen(s: Ctx, p: Plan)
    requires |p.outs| == 2 && |p.ins| == 2 && EarlyReview(s, p)
    ensures s.screen.TransactionScreen?
  {
  }

  lemma NextOf(dev: Device, s: Ctx, es: seq<Event>, k: nat)
    requires k < |es| && IsRun(dev, s, es[..k]) && Enabled(Run(dev, s, es[..k]), es[k])
    ensures IsRun(dev, s, es[..k + 1]) && Run(dev, s, es[..k + 1]) == Step(dev, Run(dev, s, es[..k]), es[k]).0
  {
    hide Step, Enabled;
    assert es[..k + 1] == es[..k] + [es[k]];
    RunExtend(dev, s, es[..k], es[k]);
  }

  lemma EarlyIsOpen(dev: Device, s: Ctx, h: Header, first: Input)
    requires EarlyApproved(dev, s, h, first)
    ensures MaySign(s) && s.screen == NoScreen && !FullyParsed(s) && s.tx.InBounds()
  {
  }

  /** So a signature over another transaction than the approved one can be had from power-up on. */
  lemma SwappedFromPowerUp(dev: Device, maxInputs: nat, h: Header, first: Input) returns (es: seq<Event>, e: Event, f: Event)
    requires 2 <= maxInputs <= 255 && h.Valid(maxInputs) && h.outputLen == 2 && h.inputLen == 2
    ensures IsRun(dev, Initial(maxInputs), es) && es == EarlyEvents(EarlyPlan(dev, maxInputs, h, first))
    ensures Approves(After(dev, Initial(maxInputs), es, 4), es[4])
    ensures var s := Run(dev, Initial(maxInputs), es); MaySign(s) && s.tx.InBounds() && SwapSigned(dev, s, e, f)
  {
    hide Step, Approves, IsRun, Run, SwapSigned, EarlyApproved, FullyParsed;
    es := EarlyRun(dev, maxInputs, h, first);
    EarlyIsOpen(dev, Run(dev, Initial(maxInputs), es), h, first);
    e, f := SwappedIsSigned(dev, Run(dev, Initial(maxInputs), es));
  }

  /** And an approval of a transaction paying its change elsewhere, if the account has any other key. */
  lemma ChangeEscapes(dev: Device, maxInputs: nat, h: Header, first: Input, a: u8, i: u32)
    returns (es: seq<Event>, fs: seq<Event>)
    requires 2 <= maxInputs <= 255 && h.Valid(maxInputs) && h.outputLen == 2 && h.inputLen == 2
    requires KeyOf(dev, h.account, a, i) != HeaderKey(dev, h)
    ensures IsRun(dev, Initial(maxInputs), es + fs) && es == EarlyEvents(EarlyPlan(dev, maxInputs, h, first))
    ensures Approves(After(dev, Initial(maxInputs), es, 4), es[4])
    ensures NoReset(dev, Run(dev, Initial(maxInputs), es), fs)
    ensures var t := Run(dev, Initial(maxInputs), es + fs);
            Approves(t, Decision(true, WELL)) && !PaysChange(dev, t.tx, h)
  {
    hide Step, IsRun, Run, NoReset, KeyAt, OutputsIn, InputsIn, PaysChange, HeaderKey;
    es := EarlyRun(dev, maxInputs, h, first);
    fs := AnyKeyEscapes(dev, Run(dev, Initial(maxInputs), es), h, a, i);
    RunConcat(dev, Initial(maxInputs), es, fs);
  }
}

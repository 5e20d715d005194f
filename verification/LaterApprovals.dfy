/** Approvals after the first of a session: exactly when they pay change to the header's key too. */
module LaterApprovals {
  import opened Bytes
  import opened Transaction
  import opened Wire
  import opened Validation
  import opened SighashSpec
  import opened SessionSpec
  import opened SessionSafety
  import opened ChangeOutput

  /** The session of header h is open. */
  predicate Counts(s: Ctx, h: Header) {
    s.reqType == CONFIRM_TRANSACTION && h.Valid(|s.tx.inputs|) &&
    s.tx.inputLen == h.inputLen && s.tx.outputLen == h.outputLen && s.tx.account == h.account
  }

  /** And nothing is on screen. */
  predicate InSession(s: Ctx, h: Header) {
    Counts(s, h) && s.screen == NoScreen
  }

  /** Every approval from here on, until a reset, is of a transaction paying change to the header's key. */
  ghost predicate LaterPay(dev: Device, s: Ctx, h: Header) {
    forall es, e :: IsRun(dev, s, es) && NoReset(dev, s, es) && Approves(Run(dev, s, es), e) ==>
      PaysChange(dev, Run(dev, s, es).tx, h)
  }

  lemma StepKeepsOutputs(dev: Device, s: Ctx, e: Event)
    requires OutputsIn(s) && !Resets(s, e)
    ensures var t := Step(dev, s, e).0;
            OutputsIn(t) && t.tx.outputs == s.tx.outputs && t.tx.outputLen == s.tx.outputLen
  {
    hide SigHash, ParseOutput, ParseInput, ParseHeader, Validated, PathAfterValidation, Extended, ShownFor;
  }

  lemma {:induction false} RunKeepsOutputs(dev: Device, s: Ctx, es: seq<Event>)
    requires OutputsIn(s) && NoReset(dev, s, es)
    ensures var t := Run(dev, s, es);
            OutputsIn(t) && t.tx.outputs == s.tx.outputs && t.tx.outputLen == s.tx.outputLen
  {
    hide Step, OutputsIn, Resets;
    if es == [] {
    } else {
      RunKeepsOutputs(dev, s, es[..|es| - 1]);
      StepKeepsOutputs(dev, Run(dev, s, es[..|es| - 1]), es[|es| - 1]);
    }
  }

  lemma {:induction false} RunKeepsBlank(dev: Device, s: Ctx, es: seq<Event>)
    requires InputsIn(s) && s.screen == NoScreen && IsRun(dev, s, es) && NoReset(dev, s, es)
    ensures InputsIn(Run(dev, s, es)) && Run(dev, s, es).screen == NoScreen
  {
    hide Step, InputsIn, Resets, Enabled;
    if es == [] {
    } else {
      RunKeepsBlank(dev, s, es[..|es| - 1]);
      ClosedStays(dev, Run(dev, s, es[..|es| - 1]), es[|es| - 1]);
    }
  }

  /** With all outputs in, the second one stays; with all inputs in, no review comes back. */
  lemma ClosedPays(dev: Device, s: Ctx, h: Header)
    requires s.screen == NoScreen && PaysChange(dev, s.tx, h) && (OutputsIn(s) || InputsIn(s))
    ensures LaterPay(dev, s, h)
  {
    hide OutputsIn, InputsIn, HeaderKey;
    forall es, e | IsRun(dev, s, es) && NoReset(dev, s, es) && Approves(Run(dev, s, es), e)
      ensures PaysChange(dev, Run(dev, s, es).tx, h)
    {
      hide IsRun, NoReset, Run;
      if OutputsIn(s) {
        RunKeepsOutputs(dev, s, es);
      } else {
        RunKeepsBlank(dev, s, es);
      }
    }
  }

  lemma {:induction false} InTotalUpdate(ins: seq<Input>, k: nat, i: Input)
    requires k < |ins|
    ensures InTotal(ins[k := i]) == InTotal(ins) - ins[k].value + i.value
  {
    var n := |ins| - 1;
    if k == n {
      assert ins[k := i][..n] == ins[..n];
    } else {
      assert ins[k := i][..n] == ins[..n][k := i];
      InTotalUpdate(ins[..n], k, i);
    }
  }

  /** An amount for input k that lets the inputs cover the outputs, whatever those are. */
  lemma CoveringAmount(ins: seq<Input>, k: nat, outs: seq<Output>) returns (v: u64)
    requires k < |ins|
    ensures Covers(ins[k := ins[k].(value := v)], outs)
  {
    hide InTotal, OutTotal;
    var rest := InTotal(ins) - ins[k].value;
    RestNonNegative(ins, k);
    v := Wrap(TWO_64 - 1 - rest);
    InTotalUpdate(ins, k, ins[k].(value := v));
    WrapBack(TWO_64 - 1, rest);
    WrapExact(TWO_64 - 1);
  }

  lemma {:induction false} RestNonNegative(ins: seq<Input>, k: nat)
    requires k < |ins|
    ensures InTotal(ins) >= ins[k].value
  {
    if k == |ins| - 1 {
    } else {
      RestNonNegative(ins[..|ins| - 1], k);
    }
  }

  function SchnorrScript(key: Bytes32): ScriptBuffer {
    [0x20] + key + [OP_CHECKSIG] + Zeros(6)
  }

  lemma SchnorrAccepted(key: Bytes32)
    ensures IsAccepted(SchnorrScript(key)) && Script(SchnorrScript(key)) == [0x20] + key + [OP_CHECKSIG]
  {
    assert SchnorrScript(key)[..34] == [0x20] + key + [OP_CHECKSIG];
  }

  function OutputChunk(o: Output): Event {
    Apdu(Command(CLA, SIGN_TX, P1_OUTPUTS, P2_MORE, EncodeOutput(o)), WELL)
  }

  function LastChunk(i: Input): Event {
    Apdu(Command(CLA, SIGN_TX, P1_INPUTS, P2_LAST, EncodeInput(i)), WELL)
  }

  /** An open output slot takes the script of any key, and nothing else of the context changes. */
  lemma OpenOutputTakes(dev: Device, s: Ctx, key: Bytes32) returns (o: Output)
    requires s.reqType == CONFIRM_TRANSACTION && s.screen == NoScreen && !OutputsIn(s)
    ensures var e, k := OutputChunk(Output(0, SchnorrScript(key))), s.parsingOutput;
            Enabled(s, e) && !Resets(s, e) &&
            Step(dev, s, e).0 == s.(tx := s.tx.(outputs := s.tx.outputs[k := o]), parsingOutput := k + 1)
    ensures o.value == 0 && o.script[0] == 0x20 && o.script[1..33] == key
  {
    hide ParseOutput, IsAccepted, Script, SchnorrScript, EncodeOutput;
    var sent, k := Output(0, SchnorrScript(key)), s.parsingOutput;
    SchnorrAccepted(key);
    OutputEncodedIsAccepted(sent, s.tx.outputs[k]);
    OutputNotEmpty(sent);
    o := ParseOutput(EncodeOutput(sent), s.tx.outputs[k]).1;
    ScriptPrefix(o.script, key);
  }

  lemma ScriptPrefix(s: ScriptBuffer, key: Bytes32)
    requires Script(s) == [0x20] + key + [OP_CHECKSIG]
    ensures s[0] == 0x20 && s[1..33] == key
  {
    assert s[0] == Script(s)[0] && s[1..33] == Script(s)[1..33];
  }

  /** The key the change would be checked against. */
  function PathKey(dev: Device, s: Ctx): Bytes32 {
    KeyAt(dev, ChangePath(s.tx, s.path))
  }

  /** A second output, if declared, is a script of the key the change would be checked against. */
  predicate MatchesPath(dev: Device, s: Ctx) {
    s.tx.outputLen == 2 ==> s.tx.outputs[1].script[0] == 0x20 && s.tx.outputs[1].script[1..33] == PathKey(dev, s)
  }

  /** With an input slot open, a last chunk raises a review of any transaction whose change matches the path. */
  lemma OpenInputReviews(dev: Device, s: Ctx) returns (e: Event, i: Input)
    requires s.reqType == CONFIRM_TRANSACTION && s.screen == NoScreen && !InputsIn(s)
    requires 1 <= s.tx.outputLen <= 2 && MatchesPath(dev, s)
    ensures e.Apdu? && Enabled(s, e) && !Resets(s, e)
    ensures var t := Step(dev, s, e).0;
            t.screen.TransactionScreen? && t.state == STATE_PARSED && t.reqType == s.reqType &&
            t.tx == s.tx.(inputs := s.tx.inputs[s.parsingInput := i]) && t.parsingInput == s.parsingInput + 1 &&
            t.parsingOutput == s.parsingOutput && t.signingIndex == s.signingIndex
  {
    hide ParseInput, EncodeInput, Covers, InTotal, OutTotal, ShownFor;
    var k := s.parsingInput;
    var view := Extended(s.tx, WELL.beyond);
    var v := CoveringAmount(view.Ins(), k, view.Outs());
    i := s.tx.inputs[k].(value := v);
    InputEncodedIsAccepted(i, s.tx.inputs[k]);
    InputNotEmpty(i);
    e := LastChunk(i);
    var t := StoreInput(s, EncodeInput(i)).0;
    assert t.tx.inputs == s.tx.inputs[k := i];
    assert Extended(t.tx, WELL.beyond).Ins() == view.Ins()[k := i];
  }

  /** The second output slot is open: it takes the key at the path instead, and a last chunk brings it to review. */
  lemma SecondReview(dev: Device, s: Ctx, h: Header) returns (es: seq<Event>)
    requires InSession(s, h) && h.outputLen == 2 && s.parsingOutput == 1 && !InputsIn(s)
    requires PathKey(dev, s) != HeaderKey(dev, h)
    ensures IsRun(dev, s, es) && NoReset(dev, s, es)
    ensures Run(dev, s, es).screen.TransactionScreen? && !PaysChange(dev, Run(dev, s, es).tx, h)
  {
    hide Step, Enabled, Resets, KeyAt, OutputChunk, HeaderKey;
    var key := PathKey(dev, s);
    var e := OutputChunk(Output(0, SchnorrScript(key)));
    var _ := OpenOutputTakes(dev, s, key);
    var t := Step(dev, s, e).0;
    var f, _ := OpenInputReviews(dev, t);
    TwoStepRun(dev, s, e, f);
    es := [e, f];
  }

  /** With a slot of each kind open and another key at the path, the change of an approved transaction goes elsewhere. */
  lemma OpenSlotsEscape(dev: Device, s: Ctx, h: Header) returns (es: seq<Event>)
    requires InSession(s, h) && h.outputLen == 2 && !OutputsIn(s) && !InputsIn(s)
    requires PathKey(dev, s) != HeaderKey(dev, h)
    ensures IsRun(dev, s, es) && NoReset(dev, s, es)
    ensures Run(dev, s, es).screen.TransactionScreen? && !PaysChange(dev, Run(dev, s, es).tx, h)
  {
    hide Step, Enabled, Resets, KeyAt, PaysChange, HeaderKey, OutputChunk;
    if s.parsingOutput == 1 {
      es := SecondReview(dev, s, h);
    } else {
      var e := OutputChunk(Output(0, SchnorrScript(Zeros(32))));
      var _ := OpenOutputTakes(dev, s, Zeros(32));
      OneStepRun(dev, s, e);
      es := SecondReview(dev, Step(dev, s, e).0, h);
      RunConcat(dev, s, [e], es);
      es := [e] + es;
    }
  }

  // ----- moving the path to any address

  function OverlongChunk(i: Input): Event {
    Apdu(Command(CLA, SIGN_TX, P1_INPUTS, P2_MORE, EncodeInput(i) + [0]), WELL)
  }

  /** An input chunk with a byte too many is stored and refused, and the slot stays open. */
  lemma OverlongStores(dev: Device, s: Ctx, i: Input)
    requires s.reqType == CONFIRM_TRANSACTION && s.screen == NoScreen && !InputsIn(s)
    requires i.sequence == s.tx.inputs[s.parsingInput].sequence
    ensures var e := OverlongChunk(i);
            Enabled(s, e) && !Resets(s, e) &&
            Step(dev, s, e).0 == s.(tx := s.tx.(inputs := s.tx.inputs[s.parsingInput := i]))
  {
    hide ParseInput, EncodeInput;
    OverlongParses(i, s.tx.inputs[s.parsingInput]);
  }

  lemma OverlongParses(i: Input, prior: Input)
    requires i.sequence == prior.sequence
    ensures ParseInput(EncodeInput(i) + [0], prior) == (INPUT_ERROR, i)
  {
    hide EncodeInput;
    var rest, more := EncodeInput(i), EncodeInput(i) + [0];
    InputEncodedIsAccepted(i, prior);
    assert |rest| == 46;
    assert more[..8] == rest[..8] && more[8..40] == rest[8..40] && more[41..45] == rest[41..45];
  }

  /** The session goes on with the same transaction, at the same chunks. */
  predicate SameSession(s: Ctx, t: Ctx) {
    t.tx == s.tx && t.reqType == s.reqType && t.screen == s.screen && t.state == s.state &&
    t.parsingInput == s.parsingInput && t.parsingOutput == s.parsingOutput
  }

  lemma RequestMovesPath(dev: Device, s: Ctx)
    requires MaySign(s) && s.screen == NoScreen && s.signingIndex < |s.tx.inputs|
    ensures var e := NextRequest(WELL);
            var t := Step(dev, s, e).0;
            Enabled(s, e) && !Resets(s, e) && SameSession(s, t) && t.signingIndex == s.signingIndex + 1 &&
            t.path == SigningPath(s.tx, s.tx.inputs[s.signingIndex])
  {
    hide SigHash, Extended;
  }

  /** Signing up to an input leaves the path at that input's address. */
  lemma {:induction false} SignUpTo(dev: Device, s: Ctx, k: nat) returns (es: seq<Event>)
    requires MaySign(s) && s.screen == NoScreen && s.signingIndex <= k < |s.tx.inputs|
    ensures IsRun(dev, s, es) && NoReset(dev, s, es)
    ensures SameSession(s, Run(dev, s, es)) && Run(dev, s, es).path == SigningPath(s.tx, s.tx.inputs[k])
    decreases k - s.signingIndex
  {
    hide Step, Enabled, Resets, SigningPath;
    var e := NextRequest(WELL);
    RequestMovesPath(dev, s);
    OneStepRun(dev, s, e);
    if s.signingIndex == k {
      es := [e];
    } else {
      es := SignUpTo(dev, Step(dev, s, e).0, k);
      RunConcat(dev, s, [e], es);
      es := [e] + es;
    }
  }

  /** While signing is approved, any address of the account can be brought into the path by an open input slot. */
  lemma AnyKeyEscapes(dev: Device, s: Ctx, h: Header, a: u8, i: u32) returns (es: seq<Event>)
    requires InSession(s, h) && MaySign(s) && h.outputLen == 2 && !OutputsIn(s) && !InputsIn(s)
    requires s.signingIndex <= s.parsingInput && KeyOf(dev, h.account, a, i) != HeaderKey(dev, h)
    ensures IsRun(dev, s, es) && NoReset(dev, s, es)
    ensures Run(dev, s, es).screen.TransactionScreen? && !PaysChange(dev, Run(dev, s, es).tx, h)
  {
    hide Step, Enabled, Resets, KeyAt, PaysChange, HeaderKey, OverlongChunk;
    var k := s.parsingInput;
    var x := s.tx.inputs[k].(addressType := a, addressIndex := i);
    OverlongStores(dev, s, x);
    OneStepRun(dev, s, OverlongChunk(x));
    var t := Step(dev, s, OverlongChunk(x)).0;
    var fs := SignUpTo(dev, t, k);
    RunConcat(dev, s, [OverlongChunk(x)], fs);
    var gs := OpenSlotsEscape(dev, Run(dev, t, fs), h);
    es := [OverlongChunk(x)] + fs;
    RunConcat(dev, s, es, gs);
    es := es + gs;
  }

  /** With two input slots open, another review of the same change can be approved, and signing is on. */
  lemma ApprovedAgain(dev: Device, s: Ctx, h: Header) returns (es: seq<Event>)
    requires InSession(s, h) && PaysChange(dev, s.tx, h) && PathKey(dev, s) == HeaderKey(dev, h)
    requires s.parsingInput + 2 <= h.inputLen && s.signingIndex <= s.parsingInput
    ensures IsRun(dev, s, es) && NoReset(dev, s, es)
    ensures var t := Run(dev, s, es);
            InSession(t, h) && MaySign(t) && (OutputsIn(t) <==> OutputsIn(s)) && !InputsIn(t) &&
            t.signingIndex <= t.parsingInput
  {
    hide Step, Enabled, Resets, KeyAt, HeaderKey;
    var e, i := OpenInputReviews(dev, s);
    var t := Step(dev, s, e).0;
    ApprovalSigns(dev, t);
    TwoStepRun(dev, s, e, Decision(true, WELL));
    es := [e, Decision(true, WELL)];
  }

  lemma ApprovalSigns(dev: Device, s: Ctx)
    requires s.screen.TransactionScreen? && s.reqType == CONFIRM_TRANSACTION && s.signingIndex < 255
    ensures var e := Decision(true, WELL);
            var t := Step(dev, s, e).0;
            Enabled(s, e) && !Resets(s, e) && Signs(dev, s, e) && MaySign(t) && t.screen == NoScreen && t.tx == s.tx &&
            t.parsingInput == s.parsingInput && t.parsingOutput == s.parsingOutput && t.signingIndex == s.signingIndex + 1
  {
    hide SigHash, Extended;
  }

  // ----- when no other key can come in

  /** All addresses of the account have the header's change key. */
  ghost predicate OneKey(dev: Device, h: Header) {
    forall a: u8, i: u32 :: KeyOf(dev, h.account, a, i) == HeaderKey(dev, h)
  }

  /** A review raised while the key at the path is the header's pays that key. */
  lemma ReviewPays(dev: Device, s: Ctx, h: Header, env: Env)
    requires Counts(s, h) && SlotsParsed(s.tx) && s.screen == NoScreen && PathKey(dev, s) == HeaderKey(dev, h)
    ensures var t := ReviewStep(dev, s, env).0;
            t.screen.TransactionScreen? ==> PaysChange(dev, t.tx, h)
  {
    hide Covers, ShownFor, HeaderKey, IsAccepted;
    if s.tx.outputLen == 2 && s.tx.outputs[1].script[0] == 0x20 {
      SchnorrSlot(s.tx);
    }
  }

  lemma SchnorrSlot(tx: SlotTx)
    requires SlotsParsed(tx) && tx.outputs[1].script[0] == 0x20
    ensures tx.outputs[1].script[33] == OP_CHECKSIG
  {
    assert IsSchnorr(tx.outputs[1].script);
  }

  /** Whatever is on screen pays the header's key, and the path is one of an address. */
  predicate ScreenPays(dev: Device, s: Ctx, h: Header) {
    Counts(s, h) && s.path[3] < 256 && (s.screen.TransactionScreen? ==> PaysChange(dev, s.tx, h))
  }

  lemma PathIsAddress(dev: Device, s: Ctx, h: Header)
    requires OneKey(dev, h) && Counts(s, h) && s.path[3] < 256
    ensures PathKey(dev, s) == HeaderKey(dev, h)
  {
    hide HeaderKey;
    assert KeyOf(dev, h.account, s.path[3], s.path[4]) == HeaderKey(dev, h);
  }

  lemma StepKeepsOneKey(dev: Device, s: Ctx, h: Header, e: Event)
    requires OneKey(dev, h) && ScreenPays(dev, s, h) && Consistent(s) && Enabled(s, e) && !Resets(s, e)
    ensures ScreenPays(dev, Step(dev, s, e).0, h)
  {
    hide SigHash, ParseOutput, ParseInput, ReviewStep, SlotsParsed, PaysChange, Extended, OneKey;
    if e.Apdu? && SignTxCommand(e.cmd) && e.cmd.p1 == P1_INPUTS && s.parsingInput < |s.tx.inputs| {
      var t := StoreInput(s, e.cmd.data).0;
      StoredSlots(s, e.cmd.data);
      PathIsAddress(dev, t, h);
      ReviewPays(dev, t, h, e.env);
      ReviewKeeps(dev, t, e.env);
    }
  }

  lemma ReviewKeeps(dev: Device, s: Ctx, env: Env)
    ensures var t := ReviewStep(dev, s, env).0;
            t.tx == s.tx && t.reqType == s.reqType && t.path[3] == s.path[3] && t.path[4] == s.path[4] &&
            t.parsingInput == s.parsingInput && (s.state != STATE_APPROVED ==> t.state != STATE_APPROVED)
  {
    hide Covers, ShownFor, Extended;
  }

  lemma {:induction false} RunKeepsOneKey(dev: Device, s: Ctx, h: Header, es: seq<Event>)
    requires OneKey(dev, h) && ScreenPays(dev, s, h) && Consistent(s) && IsRun(dev, s, es) && NoReset(dev, s, es)
    ensures ScreenPays(dev, Run(dev, s, es), h)
  {
    hide Step, Enabled, Resets, OneKey, ScreenPays, Consistent;
    if es == [] {
    } else {
      var n := |es| - 1;
      RunKeepsOneKey(dev, s, h, es[..n]);
      RunConsistent(dev, s, es[..n]);
      StepKeepsOneKey(dev, Run(dev, s, es[..n]), h, es[n]);
    }
  }

  lemma OneKeyPays(dev: Device, s: Ctx, h: Header)
    requires OneKey(dev, h) && InSession(s, h) && s.path[3] < 256 && Consistent(s)
    ensures LaterPay(dev, s, h)
  {
    hide OneKey, Consistent, PaysChange;
    forall es, e | IsRun(dev, s, es) && NoReset(dev, s, es) && Approves(Run(dev, s, es), e)
      ensures PaysChange(dev, Run(dev, s, es).tx, h)
    {
      hide IsRun, NoReset, Run;
      RunKeepsOneKey(dev, s, h, es);
    }
  }

  /** Nothing is approved, the header's key is at the path and one input slot is left; or none is. */
  predicate OneLeft(dev: Device, s: Ctx, h: Header) {
    Counts(s, h) &&
    (|| (s.screen == NoScreen && s.state != STATE_APPROVED && PathKey(dev, s) == HeaderKey(dev, h) &&
         s.parsingInput + 1 == s.tx.inputLen)
     || (InputsIn(s) && (s.screen.TransactionScreen? ==> PaysChange(dev, s.tx, h))))
  }

  lemma StepKeepsOneLeft(dev: Device, s: Ctx, h: Header, e: Event)
    requires OneLeft(dev, s, h) && Consistent(s) && Enabled(s, e) && !Resets(s, e)
    ensures OneLeft(dev, Step(dev, s, e).0, h)
  {
    hide Step, Resets, PaysChange, Consistent, KeyAt, HeaderKey;
    StepKeepsSession(dev, s, e);
    if InputsIn(s) {
      if s.screen == NoScreen {
        ClosedStays(dev, s, e);
      } else {
        DecisionClears(dev, s, e);
      }
    } else {
      LastSlotStep(dev, s, h, e);
    }
  }

  lemma DecisionClears(dev: Device, s: Ctx, e: Event)
    requires Enabled(s, e) && s.screen != NoScreen
    ensures Step(dev, s, e).0.screen == NoScreen && Step(dev, s, e).0.parsingInput == s.parsingInput
  {
    hide SigHash, Extended, ApduStep;
  }

  lemma LastSlotStep(dev: Device, s: Ctx, h: Header, e: Event)
    requires Counts(s, h) && s.screen == NoScreen && s.state != STATE_APPROVED && PathKey(dev, s) == HeaderKey(dev, h)
    requires s.parsingInput + 1 == s.tx.inputLen && Consistent(s) && Enabled(s, e) && !Resets(s, e)
    ensures OneLeft(dev, Step(dev, s, e).0, h)
  {
    hide SigHash, ParseOutput, ParseInput, ReviewStep, SlotsParsed, PaysChange, Extended, KeyAt, HeaderKey;
    if e.Apdu? && SignTxCommand(e.cmd) && e.cmd.p1 == P1_INPUTS {
      var t := StoreInput(s, e.cmd.data).0;
      StoredSlots(s, e.cmd.data);
      ReviewPays(dev, t, h, e.env);
      ReviewKeeps(dev, t, e.env);
    }
  }

  lemma {:induction false} RunKeepsOneLeft(dev: Device, s: Ctx, h: Header, es: seq<Event>)
    requires OneLeft(dev, s, h) && Consistent(s) && IsRun(dev, s, es) && NoReset(dev, s, es)
    ensures OneLeft(dev, Run(dev, s, es), h)
  {
    hide Step, Enabled, Resets, OneLeft, Consistent;
    if es == [] {
    } else {
      var n := |es| - 1;
      RunKeepsOneLeft(dev, s, h, es[..n]);
      RunConsistent(dev, s, es[..n]);
      StepKeepsOneLeft(dev, Run(dev, s, es[..n]), h, es[n]);
    }
  }

  lemma OneLeftPays(dev: Device, s: Ctx, h: Header)
    requires InSession(s, h) && !MaySign(s) && PathKey(dev, s) == HeaderKey(dev, h) && Consistent(s)
    requires s.parsingInput + 1 == h.inputLen
    ensures LaterPay(dev, s, h)
  {
    hide Consistent, PaysChange, PathKey, HeaderKey;
    forall es, e | IsRun(dev, s, es) && NoReset(dev, s, es) && Approves(Run(dev, s, es), e)
      ensures PaysChange(dev, Run(dev, s, es).tx, h)
    {
      hide IsRun, NoReset, Run;
      RunKeepsOneLeft(dev, s, h, es);
    }
  }

  // ----- the exact condition

  /** There is no second output, or nothing more can be stored of one kind. */
  predicate Closed(s: Ctx, h: Header) {
    h.outputLen == 1 || OutputsIn(s) || InputsIn(s)
  }

  /** Signing did not succeed, so the path cannot move before the one review that is left. */
  predicate Stuck(dev: Device, s: Ctx, h: Header) {
    !MaySign(s) && PathKey(dev, s) == HeaderKey(dev, h) && s.parsingInput + 1 == h.inputLen
  }

  /**
   * Exactly when later approvals are safe: in a session whose transaction pays the header's change key, every approval
   * to come pays it too if and only if there is no second output, no output slot is open, no input slot is, there is no
   * other key to come in, or it cannot come in in time.
   */
  lemma LaterPayIff(dev: Device, s: Ctx, h: Header)
    requires InSession(s, h) && Consistent(s) && PaysChange(dev, s.tx, h)
    requires s.path[3] < 256 && s.signingIndex <= s.parsingInput
    ensures LaterPay(dev, s, h) <==> Closed(s, h) || OneKey(dev, h) || Stuck(dev, s, h)
  {
    hide OutputsIn, InputsIn, Run, IsRun, NoReset, HeaderKey, KeyAt, PaysChange, LaterPay, OneKey, Consistent;
    if h.outputLen == 1 {
      OneOutputPays(dev, s, h);
    } else if Closed(s, h) {
      ClosedPays(dev, s, h);
    } else if OneKey(dev, h) {
      OneKeyPays(dev, s, h);
    } else if Stuck(dev, s, h) {
      OneLeftPays(dev, s, h);
    } else {
      var es := LooseEscapes(dev, s, h);
      NotLater(dev, s, h, es);
    }
  }

  lemma NotLater(dev: Device, s: Ctx, h: Header, es: seq<Event>)
    requires IsRun(dev, s, es) && NoReset(dev, s, es)
    requires Run(dev, s, es).screen.TransactionScreen? && !PaysChange(dev, Run(dev, s, es).tx, h)
    ensures !LaterPay(dev, s, h)
  {
    assert Approves(Run(dev, s, es), Decision(true, WELL));
  }

  /** In all other cases an approval can be had of a transaction that pays its change elsewhere. */
  lemma LooseEscapes(dev: Device, s: Ctx, h: Header) returns (es: seq<Event>)
    requires InSession(s, h) && PaysChange(dev, s.tx, h) && s.signingIndex <= s.parsingInput
    requires !Closed(s, h) && !OneKey(dev, h) && !Stuck(dev, s, h)
    ensures IsRun(dev, s, es) && NoReset(dev, s, es)
    ensures Run(dev, s, es).screen.TransactionScreen? && !PaysChange(dev, Run(dev, s, es).tx, h)
  {
    hide Step, KeyAt, PaysChange, HeaderKey, Run, IsRun, NoReset, PathKey, KeyOf;
    if PathKey(dev, s) != HeaderKey(dev, h) {
      es := OpenSlotsEscape(dev, s, h);
    } else {
      var a: u8, i: u32 :| KeyOf(dev, h.account, a, i) != HeaderKey(dev, h);
      if MaySign(s) {
        es := AnyKeyEscapes(dev, s, h, a, i);
      } else {
        var fs := ApprovedAgain(dev, s, h);
        es := AnyKeyEscapes(dev, Run(dev, s, fs), h, a, i);
        RunConcat(dev, s, fs, es);
        es := fs + es;
      }
    }
  }

  lemma OneOutputPays(dev: Device, s: Ctx, h: Header)
    requires s.tx.outputLen == 1
    ensures LaterPay(dev, s, h)
  {
    hide HeaderKey;
    forall es, e | IsRun(dev, s, es) && NoReset(dev, s, es) && Approves(Run(dev, s, es), e)
      ensures PaysChange(dev, Run(dev, s, es).tx, h)
    {
      SessionKept(dev, s, es);
    }
  }

  /** The approval of a transaction leaves a session behind whose path is that of the input it signed or tried to. */
  lemma ApprovalLeaves(dev: Device, s: Ctx, h: Header, e: Event)
    requires ChangePending(dev, s, h) && Approves(s, e)
    ensures var t := Step(dev, s, e).0;
            InSession(t, h) && t.tx == s.tx && t.path == SigningPath(s.tx, s.tx.inputs[0]) &&
            t.parsingInput == s.parsingInput && t.signingIndex <= t.parsingInput &&
            (Closed(t, h) <==> Closed(s, h)) && (MaySign(t) <==> Signs(dev, s, e))
  {
    hide SigHash, Extended, PaysChange;
  }

  /** The key of the input that is signed first. */
  function FirstKey(dev: Device, tx: SlotTx): Bytes32 {
    KeyOf(dev, tx.account, tx.inputs[0].addressType, tx.inputs[0].addressIndex)
  }

  /**
   * Over whole sessions: the first approval pays the header's change key. If it is answered with a signature, all after
   * it do if and only if there is no second output, all outputs or all inputs were in at that first approval, or the
   * account has no other key. If it is not, then also where the first input's own key is the change key and one input
   * slot is left.
   */
  lemma EveryApprovalPaysIff(dev: Device, s: Ctx, h: Header, es: seq<Event>, e: Event)
    requires Started(s, h) && IsRun(dev, s, es) && NoReset(dev, s, es) && NoApproval(dev, s, es)
    requires Approves(Run(dev, s, es), e)
    ensures var t := Run(dev, s, es);
            PaysChange(dev, t.tx, h) &&
            (LaterPay(dev, Step(dev, t, e).0, h) <==>
              Closed(t, h) || OneKey(dev, h) ||
              (!Signs(dev, t, e) && FirstKey(dev, t.tx) == HeaderKey(dev, h) && t.parsingInput + 1 == h.inputLen))
  {
    hide Step, Approves, Closed, PaysChange, LaterPay, Started, OneKey, Consistent, Signs;
    RunKeepsChange(dev, s, h, es);
    FirstApprovalPaysChange(dev, s, h, es, e);
    StartedPending(dev, s, h);
    RunConsistent(dev, s, es);
    var t := Run(dev, s, es);
    hide Run, IsRun, NoReset, NoApproval, KeyAt, HeaderKey;
    EnabledApproval(t, e);
    StepConsistent(dev, t, e);
    ApprovalLeaves(dev, t, h, e);
    LaterPayIff(dev, Step(dev, t, e).0, h);
  }

  lemma EnabledApproval(s: Ctx, e: Event)
    requires Approves(s, e)
    ensures Enabled(s, e)
  {
  }
}

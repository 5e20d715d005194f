/** What holds over whole runs of the signing session. */
module SessionSafety {
  import opened Bytes
  import opened Transaction
  import opened Wire
  import opened Validation
  import opened SighashBinding
  import Address
  import opened SighashSpec
  import opened SessionSpec

  /** A SIGN_TX command that reaches handler_sign_tx. */
  predicate SignTxCommand(cmd: Command) {
    cmd.cla == CLA && cmd.ins == SIGN_TX && SignTxGate(cmd.p1, cmd.p2) && (cmd.data != [] || cmd.p1 == P1_NEXT_SIGNATURE)
  }

  /** The steps that clear the context. */
  predicate Resets(s: Ctx, e: Event) {
    e.Apdu? && e.cmd.cla == CLA &&
    (|| (e.cmd.ins == GET_PUBLIC_KEY && e.cmd.p1 <= 1 && e.cmd.p2 == 0 && e.cmd.data != [])
     || e.cmd.ins == SIGN_MESSAGE
     || (SignTxCommand(e.cmd) && (e.cmd.p1 == P1_START || (e.cmd.p1 == P1_NEXT_SIGNATURE && !MaySign(s)))))
  }

  /** The step answers with a transaction signature. */
  predicate Signs(dev: Device, s: Ctx, e: Event) {
    var rs := Step(dev, s, e).1;
    |rs| == 1 && rs[0].TxSignature?
  }

  predicate Approves(s: Ctx, e: Event) {
    e.Decision? && e.approve && s.screen.TransactionScreen?
  }

  /** The step puts a review of a validated transaction on screen. */
  predicate RaisesReview(dev: Device, s: Ctx, e: Event) {
    && e.Apdu? && SignTxCommand(e.cmd) && e.cmd.p1 == P1_INPUTS && e.cmd.p2 == P2_LAST
    && s.reqType == CONFIRM_TRANSACTION && s.parsingInput < |s.tx.inputs| && StoreInput(s, e.cmd.data).1
    && var t := StoreInput(s, e.cmd.data).0;
       Validated(dev, Extended(t.tx, e.env.beyond), t.path, e.env.deriveError == 0) &&
       Step(dev, s, e).0.tx == t.tx && Step(dev, s, e).0.screen == TransactionScreen(ShownFor(Extended(t.tx, e.env.beyond)))
  }

  /** Nothing but commands that keep the session going. */
  predicate Quiet(s: Ctx, e: Event) {
    !e.Decision? && !Resets(s, e)
  }

  /** The context after the first k events. */
  function After(dev: Device, s: Ctx, es: seq<Event>, k: nat): Ctx
    requires k <= |es|
  {
    Run(dev, s, es[..k])
  }

  lemma AfterStep(dev: Device, s: Ctx, es: seq<Event>, k: nat)
    requires k < |es|
    ensures After(dev, s, es, k + 1) == Step(dev, After(dev, s, es, k), es[k]).0
    ensures IsRun(dev, s, es[..k + 1]) ==> IsRun(dev, s, es[..k]) && Enabled(After(dev, s, es, k), es[k])
  {
    hide Step, Enabled;
    assert es[..k + 1][..k] == es[..k];
  }

  lemma {:induction false} PrefixIsRun(dev: Device, s: Ctx, es: seq<Event>, k: nat)
    requires k <= |es| && IsRun(dev, s, es)
    ensures IsRun(dev, s, es[..k])
    decreases |es| - k
  {
    hide Step, Enabled;
    if k == |es| {
      assert es[..k] == es;
    } else {
      PrefixIsRun(dev, s, es, k + 1);
      AfterStep(dev, s, es, k);
    }
  }

  /** A run followed by another one from where it ends. */
  lemma {:induction false} RunConcat(dev: Device, s: Ctx, es: seq<Event>, fs: seq<Event>)
    ensures Run(dev, s, es + fs) == Run(dev, Run(dev, s, es), fs)
    ensures IsRun(dev, s, es + fs) <==> IsRun(dev, s, es) && IsRun(dev, Run(dev, s, es), fs)
    ensures NoReset(dev, s, es + fs) <==> NoReset(dev, s, es) && NoReset(dev, Run(dev, s, es), fs)
    decreases |fs|
  {
    hide Step, Enabled, Resets;
    if fs == [] {
      assert es + fs == es;
    } else {
      var n := |fs| - 1;
      RunConcat(dev, s, es, fs[..n]);
      assert (es + fs)[..|es| + n] == es + fs[..n];
    }
  }

  // ----- approval safety

  /** Signatures come out of approved transaction contexts only, or of the approval itself. */
  lemma SigningNeedsApproval(dev: Device, s: Ctx, e: Event)
    requires Signs(dev, s, e)
    ensures Approves(s, e) || (Quiet(s, e) && MaySign(s))
    ensures Consistent(s) ==> MaySign(Step(dev, s, e).0)
  {
    hide Step, Signs, Quiet, Consistent, Approves;
    SignatureReason(dev, s, e);
    if Consistent(s) {
      SigningStaysApproved(dev, s, e);
    }
  }

  lemma SigningStaysApproved(dev: Device, s: Ctx, e: Event)
    requires Signs(dev, s, e) && Consistent(s)
    ensures MaySign(Step(dev, s, e).0)
  {
    hide Step, Signs, SlotsParsed, SigHash, Extended, Resets;
    SignatureReason(dev, s, e);
    SignatureSource(dev, s, e);
  }

  lemma SignatureReason(dev: Device, s: Ctx, e: Event)
    requires Signs(dev, s, e)
    ensures Approves(s, e) || (Quiet(s, e) && MaySign(s))
  {
    hide SigHash, ParseOutput, ParseInput, ParseHeader, Validated, PathAfterValidation, Extended, ShownFor, SignAndSend;
  }

  /** A step that neither approves nor is quiet leaves no approved transaction behind; a quiet one adds none. */
  lemma ApprovalOnlyFromDecision(dev: Device, s: Ctx, e: Event)
    requires Consistent(s) && Enabled(s, e) && MaySign(Step(dev, s, e).0)
    ensures Approves(s, e) || (Quiet(s, e) && MaySign(s))
  {
    hide SigHash, ParseOutput, ParseInput, ParseHeader, SlotsParsed, Validated, PathAfterValidation, Extended, ShownFor;
  }

  /** The review appears only by the step that validates. */
  lemma ReviewOnlyFromValidation(dev: Device, s: Ctx, e: Event)
    requires Enabled(s, e) && Step(dev, s, e).0.screen.TransactionScreen?
    ensures RaisesReview(dev, s, e)
  {
    hide SigHash, ParseOutput, ParseInput, ParseHeader, Validated, PathAfterValidation, Extended, ShownFor;
  }

  /** Event d approves a review that event d - 1 put up after validation. */
  predicate ApprovedAt(dev: Device, s: Ctx, es: seq<Event>, d: nat) {
    1 <= d < |es| && Approves(After(dev, s, es, d), es[d]) &&
    RaisesReview(dev, After(dev, s, es, d - 1), es[d - 1])
  }

  /** From event i to event k, exclusive, there is no decision and no reset. */
  predicate QuietFrom(dev: Device, s: Ctx, es: seq<Event>, i: nat, k: nat) {
    k <= |es| && forall j :: i <= j < k ==> Quiet(After(dev, s, es, j), es[j])
  }

  /** Whenever a review is on screen, the event before put it there. */
  lemma ReviewIsFresh(dev: Device, maxInputs: nat, es: seq<Event>, k: nat)
    requires 1 <= maxInputs <= 255 && k <= |es| && IsRun(dev, Initial(maxInputs), es)
    requires After(dev, Initial(maxInputs), es, k).screen.TransactionScreen?
    ensures k > 0 && RaisesReview(dev, After(dev, Initial(maxInputs), es, k - 1), es[k - 1])
  {
    hide Step, RaisesReview, Enabled;
    var s := Initial(maxInputs);
    if k > 0 {
      PrefixIsRun(dev, s, es, k);
      AfterStep(dev, s, es, k - 1);
      ReviewOnlyFromValidation(dev, After(dev, s, es, k - 1), es[k - 1]);
    }
  }

  /** An approved transaction context has an approval behind it with nothing but quiet steps since. */
  lemma {:induction false} ApprovedHasApproval(dev: Device, maxInputs: nat, es: seq<Event>, k: nat) returns (d: nat)
    requires 1 <= maxInputs <= 255 && k <= |es| && IsRun(dev, Initial(maxInputs), es)
    requires MaySign(After(dev, Initial(maxInputs), es, k))
    ensures d < k && ApprovedAt(dev, Initial(maxInputs), es, d) && QuietFrom(dev, Initial(maxInputs), es, d + 1, k)
    decreases k
  {
    hide Step, RaisesReview, Enabled, Consistent, Quiet, Approves;
    var s := Initial(maxInputs);
    assert k > 0;
    PrefixIsRun(dev, s, es, k);
    AfterStep(dev, s, es, k - 1);
    var t := After(dev, s, es, k - 1);
    InitialConsistent(maxInputs);
    RunConsistent(dev, s, es[..k - 1]);
    ApprovalOnlyFromDecision(dev, t, es[k - 1]);
    if Approves(t, es[k - 1]) {
      d := k - 1;
      ApprovesOnScreen(t, es[k - 1]);
      ReviewIsFresh(dev, maxInputs, es, k - 1);
    } else {
      d := ApprovedHasApproval(dev, maxInputs, es, k - 1);
    }
  }

  lemma ApprovesOnScreen(s: Ctx, e: Event)
    requires Approves(s, e)
    ensures s.screen.TransactionScreen?
  {
  }

  /**
   * Approval safety: a transaction signature leaves the device in an approved transaction context only, and the
   * latest decision before it approved a review raised by a successful validation; no reset or other decision since.
   */
  lemma ApprovalSafety(dev: Device, maxInputs: nat, es: seq<Event>, k: nat) returns (d: nat)
    requires 1 <= maxInputs <= 255 && k < |es| && IsRun(dev, Initial(maxInputs), es)
    requires Signs(dev, After(dev, Initial(maxInputs), es, k), es[k])
    ensures MaySign(After(dev, Initial(maxInputs), es, k + 1))
    ensures d <= k && ApprovedAt(dev, Initial(maxInputs), es, d) && QuietFrom(dev, Initial(maxInputs), es, d + 1, k + 1)
  {
    hide Step, Enabled, Consistent;
    var s := Initial(maxInputs);
    PrefixIsRun(dev, s, es, k);
    InitialConsistent(maxInputs);
    RunConsistent(dev, s, es[..k]);
    SigningNeedsApproval(dev, After(dev, s, es, k), es[k]);
    AfterStep(dev, s, es, k);
    d := ApprovedHasApproval(dev, maxInputs, es, k + 1);
  }

  // ----- what was approved is what gets signed

  /** No further output chunk can be stored: the guard of the output step. */
  predicate OutputsIn(s: Ctx) {
    s.parsingOutput >= MAX_OUTPUTS || s.parsingOutput >= s.tx.outputLen % 256
  }

  /** No further input chunk can be stored: the guard of the input step. */
  predicate InputsIn(s: Ctx) {
    s.parsingInput >= |s.tx.inputs| || s.parsingInput >= s.tx.inputLen % 256
  }

  predicate FullyParsed(s: Ctx) {
    OutputsIn(s) && InputsIn(s)
  }

  /** No foreign call fails and all texts fit the display. */
  predicate Healthy(env: Env) {
    env.deriveError == 0 && env.generateError == 0 && env.signError == 0 && env.displayOk
  }

  const WELL: Env := Env(0, 0, 0, 0, true, true, [0, 0, 0, 0, 0], 0, Beyond(_ => BLANK_INPUT, _ => BLANK_OUTPUT))

  /** The run contains no reset. */
  predicate NoReset(dev: Device, s: Ctx, es: seq<Event>) {
    es == [] || (NoReset(dev, s, es[..|es| - 1]) && !Resets(Run(dev, s, es[..|es| - 1]), es[|es| - 1]))
  }

  /** Without a reset the request type, the counts and the number of slots stay. */
  lemma StepKeepsSession(dev: Device, s: Ctx, e: Event)
    requires !Resets(s, e)
    ensures var t := Step(dev, s, e).0;
            t.reqType == s.reqType && t.tx.version == s.tx.version && t.tx.account == s.tx.account &&
            t.tx.inputLen == s.tx.inputLen && t.tx.outputLen == s.tx.outputLen &&
            |t.tx.inputs| == |s.tx.inputs|
  {
    hide SigHash, ParseOutput, ParseInput, ParseHeader, Validated, PathAfterValidation, Extended, ShownFor;
  }

  lemma StepKeepsParsed(dev: Device, s: Ctx, e: Event)
    requires FullyParsed(s) && !Resets(s, e)
    ensures Step(dev, s, e).0.tx == s.tx && FullyParsed(Step(dev, s, e).0)
  {
    hide SigHash, ParseOutput, ParseInput, ParseHeader, Validated, PathAfterValidation, Extended, ShownFor;
  }

  /** Once fully parsed, the transaction survives every reset-free run unchanged. */
  lemma {:induction false} FullyParsedFreezes(dev: Device, s: Ctx, es: seq<Event>)
    requires FullyParsed(s) && NoReset(dev, s, es)
    ensures Run(dev, s, es).tx == s.tx && FullyParsed(Run(dev, s, es))
  {
    hide Step, FullyParsed, Resets;
    if es == [] {
    } else {
      FullyParsedFreezes(dev, s, es[..|es| - 1]);
      StepKeepsParsed(dev, Run(dev, s, es[..|es| - 1]), es[|es| - 1]);
    }
  }

  /** No reset-free run from s changes the transaction. */
  ghost predicate Frozen(dev: Device, s: Ctx) {
    forall es :: IsRun(dev, s, es) && NoReset(dev, s, es) ==> Run(dev, s, es).tx == s.tx
  }

  function ChunkCommand(p1: byte, data: seq<byte>): Command {
    Command(CLA, SIGN_TX, p1, P2_MORE, data)
  }

  lemma OneStepRun(dev: Device, s: Ctx, e: Event)
    requires Enabled(s, e) && !Resets(s, e)
    ensures IsRun(dev, s, [e]) && NoReset(dev, s, [e]) && Run(dev, s, [e]) == Step(dev, s, e).0
  {
    hide Step, Enabled, Resets;
    assert [e][..0] == [];
  }

  /** The parts of the transaction that every signature over it covers. */
  ghost predicate SameCovered(a: Tx, b: Tx)
    requires a.InBounds() && b.InBounds()
  {
    SameOutpoints(a.Ins(), b.Ins()) && SameOutputs(a.Outs(), b.Outs())
  }

  /** The event is a chunk that stores another transaction and does nothing else to the session. */
  ghost predicate ChunkSwaps(dev: Device, s: Ctx, e: Event) {
    var t := Step(dev, s, e).0;
    && e.Apdu? && Enabled(s, e) && Quiet(s, e)
    && t.tx != s.tx && (s.tx.InBounds() ==> t.tx.InBounds() && !SameCovered(s.tx, t.tx))
    && t.state == s.state && t.reqType == s.reqType && t.screen == NoScreen && t.signingIndex == s.signingIndex
  }

  lemma OpenOutputSwaps(dev: Device, s: Ctx) returns (e: Event)
    requires s.reqType == CONFIRM_TRANSACTION && s.screen == NoScreen && !OutputsIn(s)
    ensures ChunkSwaps(dev, s, e)
  {
    hide ParseOutput, Script, IsAccepted, ParseInput, ReviewStep, SignAndSend;
    var k := s.parsingOutput;
    var slot := s.tx.outputs[k];
    var o := AnotherAmount(slot);
    OutputEncodedIsAccepted(o, slot);
    OutputNotEmpty(o);
    e := Apdu(ChunkCommand(P1_OUTPUTS, EncodeOutput(o)), WELL);
    var t := Step(dev, s, e).0;
    assert t.tx.outputs[k].value == o.value != slot.value;
    assert s.tx.InBounds() ==> s.tx.Outs()[k] == slot && t.tx.Outs()[k] == t.tx.outputs[k];
  }

  lemma AnotherAmount(slot: Output) returns (o: Output)
    ensures o.value != slot.value && IsAccepted(o.script)
  {
    o := Output((slot.value as int + 1) % TWO_64, [0x20] + Zeros(32) + [OP_CHECKSIG] + Zeros(6));
  }

  lemma OutputNotEmpty(o: Output)
    ensures EncodeOutput(o) != []
  {
  }

  lemma InputNotEmpty(i: Input)
    ensures EncodeInput(i) != []
  {
  }

  lemma OpenInputSwaps(dev: Device, s: Ctx) returns (e: Event)
    requires s.reqType == CONFIRM_TRANSACTION && s.screen == NoScreen && !InputsIn(s)
    ensures ChunkSwaps(dev, s, e)
  {
    hide ParseInput, EncodeInput, ParseOutput, ReviewStep, SignAndSend;
    var k := s.parsingInput;
    var slot := s.tx.inputs[k];
    var i := slot.(txId := [(slot.txId[0] as int + 1) % 256] + slot.txId[1..]);
    assert i.txId[0] != slot.txId[0];
    InputEncodedIsAccepted(i, slot);
    InputNotEmpty(i);
    e := Apdu(ChunkCommand(P1_INPUTS, EncodeInput(i)), WELL);
    var t := Step(dev, s, e).0;
    assert t.tx.inputs[k] == i;
    assert s.tx.InBounds() ==> s.tx.Ins()[k] == slot && t.tx.Ins()[k] == i;
  }

  /** A slot still open takes a chunk with another amount or another outpoint. */
  lemma OpenSlotSwaps(dev: Device, s: Ctx) returns (e: Event)
    requires s.reqType == CONFIRM_TRANSACTION && s.screen == NoScreen && !FullyParsed(s)
    ensures ChunkSwaps(dev, s, e)
  {
    hide ChunkSwaps;
    if !OutputsIn(s) {
      e := OpenOutputSwaps(dev, s);
    } else {
      e := OpenInputSwaps(dev, s);
    }
  }

  /** Rejecting what is on screen only takes it off and ends the approval. */
  lemma RejectionKeeps(dev: Device, s: Ctx)
    requires s.screen != NoScreen
    ensures Enabled(s, Decision(false, WELL)) && !Resets(s, Decision(false, WELL))
    ensures var t := Step(dev, s, Decision(false, WELL)).0;
            t.tx == s.tx && t.reqType == s.reqType && t.screen == NoScreen &&
            (FullyParsed(t) <==> FullyParsed(s))
  {
    hide SigHash;
  }

  lemma TwoStepRun(dev: Device, s: Ctx, e: Event, f: Event)
    requires Enabled(s, e) && !Resets(s, e)
    requires Enabled(Step(dev, s, e).0, f) && !Resets(Step(dev, s, e).0, f)
    ensures IsRun(dev, s, [e, f]) && NoReset(dev, s, [e, f])
    ensures Run(dev, s, [e, f]) == Step(dev, Step(dev, s, e).0, f).0
  {
    hide Step, Enabled, Resets;
    OneStepRun(dev, s, e);
    assert [e, f][..1] == [e];
  }

  /** A review on screen does not close an open slot: after a rejection it takes a chunk. */
  lemma OpenSlotThaws(dev: Device, s: Ctx)
    requires s.reqType == CONFIRM_TRANSACTION && !FullyParsed(s)
    ensures !Frozen(dev, s)
  {
    hide Step, Resets, Enabled, SameCovered, FullyParsed;
    if s.screen == NoScreen {
      var e := OpenSlotSwaps(dev, s);
      OneStepRun(dev, s, e);
      assert Run(dev, s, [e]).tx != s.tx;
    } else {
      var r := Decision(false, WELL);
      RejectionKeeps(dev, s);
      var e := OpenSlotSwaps(dev, Step(dev, s, r).0);
      TwoStepRun(dev, s, r, e);
      assert Run(dev, s, [r, e]).tx != s.tx;
    }
  }

  /** The transaction is frozen exactly when all declared parts, as far as there are slots, have been stored. */
  lemma FrozenIffFullyParsed(dev: Device, s: Ctx)
    requires s.reqType == CONFIRM_TRANSACTION
    ensures Frozen(dev, s) <==> FullyParsed(s)
  {
    hide Step, FullyParsed, Resets, Enabled;
    if FullyParsed(s) {
      forall es | IsRun(dev, s, es) && NoReset(dev, s, es) ensures Run(dev, s, es).tx == s.tx {
        FullyParsedFreezes(dev, s, es);
      }
    } else {
      OpenSlotThaws(dev, s);
    }
  }

  // ----- what a signature is over

  /** The sighash and signature of one signing step. */
  predicate SignsInput(dev: Device, s: Ctx, e: Event, r: Reply) {
    hide SigHash;
    && r.TxSignature? && r.inputIndex == s.signingIndex
    && r.hasMore == (s.tx.inputLen - s.signingIndex - 1) % 256
    && var txin := InputAt(s.tx, s.signingIndex, e.env.beyond);
       var path := SigningPath(s.tx, txin);
       r.sighash == SigHash(Extended(s.tx, e.env.beyond), txin, KeyAt(dev, path)) &&
       r.signature == dev.sign(path, r.sighash, e.env.nonce)
  }

  lemma SendSigns(dev: Device, s: Ctx, env: Env)
    requires SignAndSend(dev, s, env).1[0].TxSignature?
    ensures SignsInput(dev, s, Decision(true, env), SignAndSend(dev, s, env).1[0])
    ensures SignAndSend(dev, s, env).0.tx == s.tx
    ensures SignAndSend(dev, s, env).0.signingIndex == (s.signingIndex as int + 1) % 256
  {
    hide SigHash, Extended;
  }

  lemma SigningStep(dev: Device, s: Ctx, e: Event)
    requires Signs(dev, s, e)
    ensures SignsInput(dev, s, e, Step(dev, s, e).1[0])
    ensures Step(dev, s, e).0.tx == s.tx
    ensures Step(dev, s, e).0.signingIndex == (s.signingIndex as int + 1) % 256
  {
    hide Step, Signs, SigHash, SignAndSend, Extended, InputAt, SigningPath, KeyAt;
    SignatureSource(dev, s, e);
    SendSigns(dev, if e.Decision? then s.(screen := NoScreen, state := STATE_APPROVED) else s, e.env);
  }

  /** Only an approval and NEXT_SIGNATURE are answered with a signature. */
  lemma SignatureSource(dev: Device, s: Ctx, e: Event)
    requires Signs(dev, s, e)
    ensures var t := if e.Decision? then s.(screen := NoScreen, state := STATE_APPROVED) else s;
            Step(dev, s, e) == SignAndSend(dev, t, e.env) && SignAndSend(dev, t, e.env).1[0].TxSignature?
  {
    hide SigHash, SignAndSend, ParseOutput, ParseInput, ParseHeader, Validated, PathAfterValidation, Extended, ShownFor;
  }

  function NextRequest(env: Env): Event {
    Apdu(Command(CLA, SIGN_TX, P1_NEXT_SIGNATURE, P2_LAST, []), env)
  }

  /** In an approved context a request for the next signature is answered with one. */
  lemma NextRequestSigns(dev: Device, s: Ctx, env: Env)
    requires MaySign(s) && s.screen == NoScreen && Healthy(env)
    ensures Enabled(s, NextRequest(env)) && Quiet(s, NextRequest(env)) && Signs(dev, s, NextRequest(env))
  {
    hide SigHash, Extended;
  }

  /** A step that sends no signature leaves the numbering alone. */
  lemma SilentStep(dev: Device, s: Ctx, e: Event)
    requires !Signs(dev, s, e) && !Resets(s, e)
    ensures Step(dev, s, e).0.signingIndex == s.signingIndex
  {
    hide SigHash, ParseOutput, ParseInput, ParseHeader, Validated, PathAfterValidation, Extended, ShownFor;
  }

  /**
   * What was approved is what gets signed: from a fully parsed context on, with the declared counts inside the
   * arrays, every signature of a reset-free run is over that context's transaction.
   */
  lemma ApprovedIsSigned(dev: Device, s: Ctx, es: seq<Event>, e: Event)
    requires FullyParsed(s) && s.tx.InBounds() && NoReset(dev, s, es) && Signs(dev, Run(dev, s, es), e)
    ensures var r := Step(dev, Run(dev, s, es), e).1[0];
            r.TxSignature? &&
            (r.inputIndex < |s.tx.inputs| ==>
               var txin := s.tx.inputs[r.inputIndex];
               r.sighash == SigHash(s.tx, txin, KeyAt(dev, SigningPath(s.tx, txin))))
  {
    hide Step, SigHash, Resets, FullyParsed, Extended;
    FullyParsedFreezes(dev, s, es);
    SigningStep(dev, Run(dev, s, es), e);
  }

  // ----- numbering

  /** How many signatures a run sends. */
  function SigCount(dev: Device, s: Ctx, es: seq<Event>): nat {
    if es == [] then 0
    else SigCount(dev, s, es[..|es| - 1]) + (if Signs(dev, Run(dev, s, es[..|es| - 1]), es[|es| - 1]) then 1 else 0)
  }

  lemma {:induction false} IndexCounts(dev: Device, s: Ctx, es: seq<Event>)
    requires s.signingIndex == 0 && NoReset(dev, s, es)
    ensures Run(dev, s, es).signingIndex == SigCount(dev, s, es) % 256
  {
    hide Step, Signs, Resets;
    if es == [] {
    } else {
      var n := |es| - 1;
      var t := Run(dev, s, es[..n]);
      IndexCounts(dev, s, es[..n]);
      NextIndex(dev, t, es[n]);
    }
  }

  lemma NextIndex(dev: Device, s: Ctx, e: Event)
    requires !Resets(s, e)
    ensures Step(dev, s, e).0.signingIndex == (if Signs(dev, s, e) then (s.signingIndex as int + 1) % 256 else s.signingIndex)
  {
    hide Step, Signs, Resets, SignsInput;
    if Signs(dev, s, e) {
      SigningStep(dev, s, e);
    } else {
      SilentStep(dev, s, e);
    }
  }

  /** The session's fixed data along a run. */
  lemma {:induction false} SessionKept(dev: Device, s: Ctx, es: seq<Event>)
    requires NoReset(dev, s, es)
    ensures var t := Run(dev, s, es);
            t.reqType == s.reqType && t.tx.version == s.tx.version && t.tx.account == s.tx.account &&
            t.tx.inputLen == s.tx.inputLen && t.tx.outputLen == s.tx.outputLen && |t.tx.inputs| == |s.tx.inputs|
  {
    hide Step, Resets;
    if es == [] {
    } else {
      SessionKept(dev, s, es[..|es| - 1]);
      StepKeepsSession(dev, Run(dev, s, es[..|es| - 1]), es[|es| - 1]);
    }
  }

  function Hardened(n: nat): u32
    requires n < 0x8000_0000
  {
    0x8000_0000 + n
  }

  /** A reply that is the signature of declared input n of tx, with the others still missing. */
  predicate IsSignatureOf(dev: Device, tx: Tx, n: nat, nonce: nat, r: Reply)
    requires tx.InBounds() && n < tx.inputLen <= 255
  {
    hide SigHash;
    var txin := tx.inputs[n];
    var path := [Hardened(44), Hardened(111111), tx.account, txin.addressType, txin.addressIndex];
    r.TxSignature? && r.inputIndex == n && r.hasMore == tx.inputLen - n - 1 &&
    r.sighash == SigHash(tx, txin, KeyAt(dev, path)) && r.signature == dev.sign(path, r.sighash, nonce)
  }

  /** The two numbers in the reply to a signing event. */
  lemma ReplyNumbers(dev: Device, s: Ctx, es: seq<Event>, e: Event)
    requires s.signingIndex == 0 && NoReset(dev, s, es) && Signs(dev, Run(dev, s, es), e)
    ensures var r, n := Step(dev, Run(dev, s, es), e).1[0], SigCount(dev, s, es) % 256;
            r.TxSignature? && r.inputIndex == n && r.hasMore == (s.tx.inputLen - n - 1) % 256
    ensures Run(dev, s, es).signingIndex == SigCount(dev, s, es) % 256
  {
    hide Step, Signs, Resets, SigHash, Extended, InputAt, SigningPath, KeyAt;
    IndexCounts(dev, s, es);
    SessionKept(dev, s, es);
    SigningStep(dev, Run(dev, s, es), e);
  }

  /**
   * Signature numbering: the n-th signature of a session (from 0) has index n and announces count - n - 1 more, both
   * modulo 256; for a declared input it is the device's signature, at that input's own path, of that input's sighash.
   */
  lemma SignatureNumbering(dev: Device, s: Ctx, es: seq<Event>, e: Event)
    requires s.signingIndex == 0 && s.tx.InBounds()
    requires NoReset(dev, s, es) && Signs(dev, Run(dev, s, es), e)
    ensures Run(dev, s, es).tx.InBounds() && Run(dev, s, es).tx.inputLen == s.tx.inputLen
    ensures var r, n := Step(dev, Run(dev, s, es), e).1[0], SigCount(dev, s, es) % 256;
            r.TxSignature? && r.inputIndex == n && r.hasMore == (s.tx.inputLen - n - 1) % 256 &&
            (n < s.tx.inputLen ==> IsSignatureOf(dev, Run(dev, s, es).tx, n, e.env.nonce, r))
  {
    hide Step, Signs, NoReset, Run, SigCount, IsSignatureOf;
    ReplyNumbers(dev, s, es, e);
    SessionKept(dev, s, es);
    if SigCount(dev, s, es) % 256 < s.tx.inputLen {
      DeclaredSignature(dev, Run(dev, s, es), e);
    }
  }

  lemma DeclaredSignature(dev: Device, s: Ctx, e: Event)
    requires s.tx.InBounds() && s.signingIndex < s.tx.inputLen && Signs(dev, s, e)
    ensures IsSignatureOf(dev, s.tx, s.signingIndex, e.env.nonce, Step(dev, s, e).1[0])
  {
    hide Step, Signs, SigHash, Extended;
    SigningStep(dev, s, e);
  }

  /** Every signature of a session is of a declared input exactly while the count, modulo 256, is below theirs. */
  lemma SignsDeclaredIff(dev: Device, s: Ctx, es: seq<Event>, e: Event)
    requires s.signingIndex == 0 && s.tx.InBounds()
    requires NoReset(dev, s, es) && Signs(dev, Run(dev, s, es), e)
    ensures var t, r := Run(dev, s, es).tx, Step(dev, Run(dev, s, es), e).1[0];
            t.InBounds() &&
            ((exists n: nat :: n < t.inputLen <= 255 && IsSignatureOf(dev, t, n, e.env.nonce, r)) <==>
             SigCount(dev, s, es) % 256 < s.tx.inputLen)
  {
    hide Step, Signs, Resets, SigHash, NoReset, SigCount, Run;
    SignatureNumbering(dev, s, es, e);
  }

  /** A host that asks on while has_more is non-zero stops after exactly as many signatures as there are inputs. */
  lemma HostLoopCount(dev: Device, s: Ctx, es: seq<Event>, e: Event)
    requires s.signingIndex == 0 && 1 <= s.tx.inputLen <= 255
    requires NoReset(dev, s, es) && Signs(dev, Run(dev, s, es), e) && SigCount(dev, s, es) < 256
    ensures var r := Step(dev, Run(dev, s, es), e).1[0];
            r.TxSignature? && (r.hasMore == 0 <==> SigCount(dev, s, es) + 1 == s.tx.inputLen)
  {
    hide Step, Signs, NoReset, Run, SigCount;
    ReplyNumbers(dev, s, es, e);
  }

  /** Between i and k nothing resets, so a transaction fully parsed at i is the one at k. */
  lemma {:induction false} ParsedSince(dev: Device, s: Ctx, es: seq<Event>, i: nat, k: nat)
    requires i <= k <= |es| && FullyParsed(After(dev, s, es, i))
    requires forall j :: i <= j < k ==> !Resets(After(dev, s, es, j), es[j])
    ensures After(dev, s, es, k).tx == After(dev, s, es, i).tx && FullyParsed(After(dev, s, es, k))
    decreases k
  {
    hide Step, FullyParsed, Resets;
    if i == k {
    } else {
      ParsedSince(dev, s, es, i, k - 1);
      AfterStep(dev, s, es, k - 1);
      StepKeepsParsed(dev, After(dev, s, es, k - 1), es[k - 1]);
    }
  }

  /** The sighash in a reply to a signing step of s. */
  predicate IsSighashOf(dev: Device, tx: SlotTx, r: Reply, b: Beyond) {
    hide SigHash;
    r.TxSignature? &&
    var txin := InputAt(tx, r.inputIndex, b);
    r.sighash == SigHash(Extended(tx, b), txin, KeyAt(dev, SigningPath(tx, txin)))
  }

  /**
   * Over whole runs: the signature sent at event k belongs to an approval at event d, and if the transaction was fully
   * parsed when it was approved, then it is that very transaction whose sighash is signed.
   */
  lemma SignedIsApproved(dev: Device, maxInputs: nat, es: seq<Event>, k: nat) returns (d: nat)
    requires 1 <= maxInputs <= 255 && k < |es| && IsRun(dev, Initial(maxInputs), es)
    requires Signs(dev, After(dev, Initial(maxInputs), es, k), es[k])
    ensures d <= k && ApprovedAt(dev, Initial(maxInputs), es, d) && QuietFrom(dev, Initial(maxInputs), es, d + 1, k + 1)
    ensures var approved := After(dev, Initial(maxInputs), es, d);
            FullyParsed(approved) ==>
              After(dev, Initial(maxInputs), es, k).tx == approved.tx &&
              IsSighashOf(dev, approved.tx, Step(dev, After(dev, Initial(maxInputs), es, k), es[k]).1[0], es[k].env.beyond)
  {
    hide Step, Enabled, FullyParsed, RaisesReview, SigHash, Extended, InputAt;
    var s := Initial(maxInputs);
    d := ApprovalSafety(dev, maxInputs, es, k);
    forall j | d <= j < k ensures !Resets(After(dev, s, es, j), es[j]) {
      if j > d {
        assert Quiet(After(dev, s, es, j), es[j]);
      }
    }
    if FullyParsed(After(dev, s, es, d)) {
      ParsedSince(dev, s, es, d, k);
      SigningStep(dev, After(dev, s, es, k), es[k]);
    }
  }

  // ----- what the review shows

  /** The review on screen is of the stored transaction. */
  predicate ShowsStored(s: Ctx) {
    s.screen.TransactionScreen? &&
    s.screen.shown.amount == s.tx.outputs[0].value &&
    s.screen.shown.address == Address.ScriptAddress(s.tx.outputs[0].script) &&
    (s.tx.InBounds() ==> s.screen.shown == ShownFor(s.tx))
  }

  lemma ReviewShowsStored(dev: Device, s: Ctx, e: Event)
    requires RaisesReview(dev, s, e)
    ensures ShowsStored(Step(dev, s, e).0)
  {
    hide Step, StoreInput, Address.ScriptAddress, Validated, InTotal, OutTotal;
  }

  /**
   * What was shown is what gets signed: every signature belongs to an approval of a review showing the first output's
   * amount and address, and if the transaction was fully parsed then, it is the one signed.
   */
  lemma SignedIsShown(dev: Device, maxInputs: nat, es: seq<Event>, k: nat) returns (d: nat)
    requires 1 <= maxInputs <= 255 && k < |es| && IsRun(dev, Initial(maxInputs), es)
    requires Signs(dev, After(dev, Initial(maxInputs), es, k), es[k])
    ensures d <= k && ApprovedAt(dev, Initial(maxInputs), es, d) && QuietFrom(dev, Initial(maxInputs), es, d + 1, k + 1)
    ensures ShowsStored(After(dev, Initial(maxInputs), es, d))
    ensures var approved, t := After(dev, Initial(maxInputs), es, d), After(dev, Initial(maxInputs), es, k);
            FullyParsed(approved) ==>
              t.tx == approved.tx && IsSighashOf(dev, t.tx, Step(dev, t, es[k]).1[0], es[k].env.beyond)
  {
    hide Step, Enabled, FullyParsed, RaisesReview, IsSighashOf, ShowsStored;
    var s := Initial(maxInputs);
    d := SignedIsApproved(dev, maxInputs, es, k);
    AfterStep(dev, s, es, d - 1);
    ReviewShowsStored(dev, After(dev, s, es, d - 1), es[d - 1]);
  }

  /** The fee on screen is the difference of the wrapped totals, exact exactly when both wrapped equally often. */
  lemma ReviewedFee(dev: Device, s: Ctx, e: Event)
    requires RaisesReview(dev, s, e)
    ensures var tx := Extended(StoreInput(s, e.cmd.data).0.tx, e.env.beyond);
            var screen, paid, spent := Step(dev, s, e).0.screen, InTotal(tx.Ins()), OutTotal(tx.Outs());
            screen.TransactionScreen? && screen.shown.fees == Wrap(paid) - Wrap(spent) &&
            (screen.shown.fees == paid - spent <==> paid / TWO_64 == spent / TWO_64)
  {
    hide Step, Extended, InTotal, OutTotal, Address.ScriptAddress, Wrap, StoreInput, ChangeMatches;
    var tx := Extended(StoreInput(s, e.cmd.data).0.tx, e.env.beyond);
    ValidatedFee(tx.Ins(), tx.Outs(), ShownFor(tx).fees);
  }
}

/** Which key the change of an approved transaction goes to. */
module ChangeOutput {
  import opened Bytes
  import opened Transaction
  import opened Wire
  import opened Validation
  import opened SighashSpec
  import opened SessionSpec
  import opened SessionSafety

  /** The context right after a header was accepted. */
  predicate Started(s: Ctx, h: Header) {
    && h.Valid(|s.tx.inputs|) && HoldsHeader(h, s.tx, s.path)
    && s.reqType == CONFIRM_TRANSACTION && s.state == STATE_NONE && s.screen == NoScreen
    && s.signingIndex == 0 && s.parsingInput == 0 && s.parsingOutput == 0
    && s.tx.outputs == BlankTx(|s.tx.inputs|).outputs && s.tx.inputs == BlankTx(|s.tx.inputs|).inputs
  }

  /** P1_START is answered with SW_OK exactly for the encoding of a valid header, which the session then starts from. */
  lemma AcceptedStart(s: Ctx, data: seq<byte>) returns (h: Header)
    requires StartStep(s, data).1 == [StatusWord(SW_OK)]
    ensures data == EncodeHeader(h) && Started(StartStep(s, data).0, h)
  {
    var c := Cleared(s, CONFIRM_TRANSACTION);
    h := HeaderAcceptedIsEncoded(data, c.tx, c.path, |c.tx.inputs|);
    HeaderKeepsSlots(data, c.tx, c.path, |c.tx.inputs|);
  }

  /** The key at an address of an account. */
  function KeyOf(dev: Device, account: u32, addressType: u8, addressIndex: u32): Bytes32 {
    KeyAt(dev, [Hardened(44), Hardened(111111), account, addressType, addressIndex])
  }

  /** The key the header announced for change. */
  function HeaderKey(dev: Device, h: Header): Bytes32 {
    KeyOf(dev, h.account, h.changeType, h.changeIndex)
  }

  /** The second output, if declared, is the Schnorr script of the key the header announced for change. */
  predicate PaysChange(dev: Device, tx: SlotTx, h: Header) {
    tx.outputLen == 2 ==>
      var script := tx.outputs[1].script;
      script[0] == 0x20 && script[33] == OP_CHECKSIG && script[1..33] == HeaderKey(dev, h)
  }

  /** Before any approval: the path still ends in the header's change address. */
  predicate ChangePending(dev: Device, s: Ctx, h: Header) {
    && s.reqType == CONFIRM_TRANSACTION && s.state != STATE_APPROVED && s.signingIndex == 0
    && s.path[3] == h.changeType && s.path[4] == h.changeIndex && s.tx.account == h.account
    && s.tx.inputLen == h.inputLen && s.tx.outputLen == h.outputLen && h.Valid(|s.tx.inputs|)
    && (s.screen.TransactionScreen? ==> PaysChange(dev, s.tx, h) && s.parsingInput >= 1)
  }

  /** What the validation checks, at the header's path and on an accepted script, is that the change is paid. */
  lemma MatchPaysChange(dev: Device, tx: SlotTx, path: Path, h: Header, derived: bool)
    requires tx.InBounds() && SlotsParsed(tx) && ChangeMatches(dev, tx, path, derived)
    requires path[3] == h.changeType && path[4] == h.changeIndex && tx.account == h.account
    ensures PaysChange(dev, tx, h)
  {
    if tx.outputLen == 2 {
      assert IsSchnorr(tx.outputs[1].script);
    }
  }

  lemma ReviewPaysChange(dev: Device, s: Ctx, h: Header, env: Env)
    requires ChangePending(dev, s, h) && SlotsParsed(s.tx) && s.screen == NoScreen && s.parsingInput >= 1
    ensures ChangePending(dev, ReviewStep(dev, s, env).0, h)
  {
    hide Covers, ShownFor, PaysChange, ChangeMatches, SlotsParsed;
    if Validated(dev, Extended(s.tx, env.beyond), s.path, env.deriveError == 0) {
      MatchPaysChange(dev, s.tx, s.path, h, env.deriveError == 0);
    }
  }

  lemma StepKeepsChange(dev: Device, s: Ctx, h: Header, e: Event)
    requires ChangePending(dev, s, h) && Consistent(s) && Enabled(s, e) && !Resets(s, e) && !Approves(s, e)
    ensures ChangePending(dev, Step(dev, s, e).0, h)
  {
    hide SigHash, ParseOutput, ParseInput, ReviewStep, SlotsParsed, PaysChange, Extended;
    if e.Apdu? && SignTxCommand(e.cmd) && e.cmd.p1 == P1_INPUTS && s.parsingInput < |s.tx.inputs| {
      var t := StoreInput(s, e.cmd.data).0;
      StoredSlots(s, e.cmd.data);
      if StoreInput(s, e.cmd.data).1 {
        ReviewPaysChange(dev, t, h, e.env);
      }
    }
  }

  lemma StoredSlots(s: Ctx, data: seq<byte>)
    requires SlotsParsed(s.tx) && s.parsingInput < |s.tx.inputs|
    ensures SlotsParsed(StoreInput(s, data).0.tx)
  {
    hide ParseInput, IsAccepted;
  }

  /** The run contains no approval of a transaction. */
  predicate NoApproval(dev: Device, s: Ctx, es: seq<Event>) {
    es == [] || (NoApproval(dev, s, es[..|es| - 1]) && !Approves(Run(dev, s, es[..|es| - 1]), es[|es| - 1]))
  }

  lemma StartedPending(dev: Device, s: Ctx, h: Header)
    requires Started(s, h)
    ensures ChangePending(dev, s, h) && Consistent(s)
  {
    BlankSlots(|s.tx.inputs|);
  }

  lemma {:induction false} RunKeepsChange(dev: Device, s: Ctx, h: Header, es: seq<Event>)
    requires Started(s, h) && IsRun(dev, s, es) && NoReset(dev, s, es) && NoApproval(dev, s, es)
    ensures ChangePending(dev, Run(dev, s, es), h)
  {
    hide Step, Resets, Approves, ChangePending, Consistent, Enabled, Started;
    StartedPending(dev, s, h);
    if es == [] {
    } else {
      var n := |es| - 1;
      RunKeepsChange(dev, s, h, es[..n]);
      RunConsistent(dev, s, es[..n]);
      StepKeepsChange(dev, Run(dev, s, es[..n]), h, es[n]);
    }
  }

  /** The first approval of a session is of a transaction that pays its change to the header's change address. */
  lemma FirstApprovalPaysChange(dev: Device, s: Ctx, h: Header, es: seq<Event>, e: Event)
    requires Started(s, h) && IsRun(dev, s, es) && NoReset(dev, s, es) && NoApproval(dev, s, es)
    requires Approves(Run(dev, s, es), e)
    ensures PaysChange(dev, Run(dev, s, es).tx, h)
  {
    RunKeepsChange(dev, s, h, es);
  }

  /** The event is a final chunk. */
  predicate IsLastChunk(e: Event) {
    e.Apdu? && SignTxCommand(e.cmd) && e.cmd.p1 == P1_INPUTS && e.cmd.p2 == P2_LAST
  }

  /** P2_LAST comes only with the final declared input. */
  predicate LastOnlyAtEnd(dev: Device, s: Ctx, es: seq<Event>) {
    es == [] ||
    (LastOnlyAtEnd(dev, s, es[..|es| - 1]) &&
     var t := Run(dev, s, es[..|es| - 1]);
     IsLastChunk(es[|es| - 1]) ==> t.parsingInput + 1 == t.tx.inputLen)
  }

  /** Before the approval the change is pending; after it all inputs are in and no review comes back. */
  predicate OneReview(dev: Device, s: Ctx, h: Header) {
    || (ChangePending(dev, s, h) && (s.screen.TransactionScreen? ==> s.parsingInput == s.tx.inputLen))
    || (s.parsingInput == s.tx.inputLen <= |s.tx.inputs| && s.screen == NoScreen)
  }

  lemma ApprovalCloses(dev: Device, s: Ctx, e: Event)
    requires Approves(s, e)
    ensures var t := Step(dev, s, e).0;
            t.screen == NoScreen && t.parsingInput == s.parsingInput && t.tx == s.tx
  {
    hide SigHash, Extended;
  }

  lemma ClosedStays(dev: Device, s: Ctx, e: Event)
    requires InputsIn(s) && s.screen == NoScreen && Enabled(s, e) && !Resets(s, e)
    ensures InputsIn(Step(dev, s, e).0) && Step(dev, s, e).0.screen == NoScreen
    ensures Step(dev, s, e).0.parsingInput == s.parsingInput
  {
    hide SigHash, ParseOutput, ParseInput, ParseHeader, Validated, PathAfterValidation, Extended, ShownFor;
  }

  lemma ReviewAtEnd(dev: Device, s: Ctx, e: Event)
    requires s.tx.inputLen <= |s.tx.inputs| && !Resets(s, e) && !Approves(s, e)
    requires Enabled(s, e) && Step(dev, s, e).0.screen.TransactionScreen?
    ensures IsLastChunk(e) && Step(dev, s, e).0.parsingInput == (s.parsingInput as int + 1) % 256
    ensures Step(dev, s, e).0.tx.inputLen == s.tx.inputLen
  {
    hide SigHash, ParseOutput, ParseInput, ParseHeader, Validated, PathAfterValidation, Extended, ShownFor;
  }

  lemma StepKeepsOneReview(dev: Device, s: Ctx, h: Header, e: Event)
    requires OneReview(dev, s, h) && Consistent(s) && Enabled(s, e) && !Resets(s, e)
    requires IsLastChunk(e) ==> s.parsingInput + 1 == s.tx.inputLen
    ensures OneReview(dev, Step(dev, s, e).0, h)
  {
    hide Step, Resets, PaysChange, Consistent, SlotsParsed, IsLastChunk;
    if Approves(s, e) {
      ApprovalCloses(dev, s, e);
    } else if ChangePending(dev, s, h) {
      StepKeepsChange(dev, s, h, e);
      if Step(dev, s, e).0.screen.TransactionScreen? {
        ReviewAtEnd(dev, s, e);
      }
    } else {
      ClosedStays(dev, s, e);
      StepKeepsSession(dev, s, e);
    }
  }

  lemma {:induction false} RunKeepsOneReview(dev: Device, s: Ctx, h: Header, es: seq<Event>)
    requires Started(s, h) && IsRun(dev, s, es) && NoReset(dev, s, es) && LastOnlyAtEnd(dev, s, es)
    ensures OneReview(dev, Run(dev, s, es), h)
  {
    hide Step, Resets, IsLastChunk, ChangePending, Consistent, Enabled;
    StartedPending(dev, s, h);
    if es == [] {
    } else {
      var n := |es| - 1;
      RunKeepsOneReview(dev, s, h, es[..n]);
      RunConsistent(dev, s, es[..n]);
      StepKeepsOneReview(dev, Run(dev, s, es[..n]), h, es[n]);
    }
  }

  /**
   * Change output over whole sessions: when P2_LAST comes only with the final declared input, every approved
   * two-output transaction pays its change to the key at the header's change address, by a Schnorr script.
   */
  lemma ApprovedPaysChange(dev: Device, s: Ctx, h: Header, es: seq<Event>, e: Event)
    requires Started(s, h) && IsRun(dev, s, es) && NoReset(dev, s, es) && LastOnlyAtEnd(dev, s, es)
    requires Approves(Run(dev, s, es), e)
    ensures PaysChange(dev, Run(dev, s, es).tx, h)
  {
    RunKeepsOneReview(dev, s, h, es);
  }
}

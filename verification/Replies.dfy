/** What is answered: which chunks are accepted, and what every refusal says and leaves behind. */
module Replies {
  import opened Bytes
  import opened Transaction
  import opened Wire
  import opened Validation
  import opened SighashSpec
  import opened SessionSpec
  import opened SessionSafety

  ghost predicate IsHeader(data: seq<byte>, maxInputs: nat) {
    exists h: Header :: h.Valid(maxInputs) && data == EncodeHeader(h)
  }

  ghost predicate IsOutput(data: seq<byte>) {
    exists o: Output :: IsAccepted(o.script) && data == EncodeOutput(o)
  }

  ghost predicate IsInput(data: seq<byte>) {
    exists i: Input :: data == EncodeInput(i)
  }

  lemma HeaderAccepted(data: seq<byte>, prior: Tx, path: Path, maxInputs: nat)
    ensures ParseHeader(data, prior, path, maxInputs).0 == PARSING_OK <==> IsHeader(data, maxInputs)
  {
    hide ParseHeader, EncodeHeader;
    if ParseHeader(data, prior, path, maxInputs).0 == PARSING_OK {
      var h := HeaderAcceptedIsEncoded(data, prior, path, maxInputs);
      assert data == EncodeHeader(h);
    } else if IsHeader(data, maxInputs) {
      var h: Header :| h.Valid(maxInputs) && data == EncodeHeader(h);
      HeaderEncodedIsAccepted(h, prior, path, maxInputs);
      assert false;
    }
  }

  lemma OutputAccepted(data: seq<byte>, prior: Output)
    ensures ParseOutput(data, prior).0 == PARSING_OK <==> IsOutput(data)
  {
    hide ParseOutput, EncodeOutput, IsAccepted;
    if ParseOutput(data, prior).0 == PARSING_OK {
      OutputAcceptedIsEncoded(data, prior);
    } else if IsOutput(data) {
      var o: Output :| IsAccepted(o.script) && data == EncodeOutput(o);
      OutputEncodedIsAccepted(o, prior);
      assert false;
    }
  }

  lemma InputAccepted(data: seq<byte>, prior: Input)
    ensures ParseInput(data, prior).0 == PARSING_OK <==> IsInput(data)
  {
    hide ParseInput, EncodeInput;
    if ParseInput(data, prior).0 == PARSING_OK {
      InputAcceptedIsEncoded(data, prior);
    } else if IsInput(data) {
      var i: Input :| data == EncodeInput(i);
      InputEncodedIsAccepted(i, prior);
      assert false;
    }
  }

  /** The answer to P1_START. */
  lemma StartReply(s: Ctx, data: seq<byte>)
    ensures StartStep(s, data).1 == [StatusWord(if IsHeader(data, |s.tx.inputs|) then 0x9000 else 0xB005)]
  {
    hide ParseHeader, IsHeader;
    var c := Cleared(s, CONFIRM_TRANSACTION);
    HeaderAccepted(data, c.tx, c.path, |s.tx.inputs|);
  }

  /** The answer to an output chunk: a refused one gets the parser's error, and only an accepted one counts. */
  lemma OutputReply(s: Ctx, data: seq<byte>)
    ensures var (t, rs) := OutputsStep(s, data);
            var accepted := s.reqType == CONFIRM_TRANSACTION && s.parsingOutput < 2 &&
                            s.parsingOutput < s.tx.outputLen % 256 && IsOutput(data);
            (rs == [StatusWord(0x9000)] <==> accepted) &&
            t.parsingOutput == s.parsingOutput + (if accepted then 1 else 0)
  {
    hide ParseOutput, IsOutput;
    if s.parsingOutput < 2 {
      OutputAccepted(data, s.tx.outputs[s.parsingOutput]);
    }
  }

  /** An input chunk is stored for good exactly when it is a serialized input. */
  lemma InputStoredIff(s: Ctx, data: seq<byte>)
    requires s.parsingInput < |s.tx.inputs|
    ensures StoreInput(s, data).1 <==> IsInput(data)
    ensures StoreInput(s, data).0.parsingInput == s.parsingInput + (if IsInput(data) then 1 else 0)
  {
    hide ParseInput, IsInput;
    InputAccepted(data, s.tx.inputs[s.parsingInput]);
  }

  /** The answer to an input chunk that is not the last. */
  lemma InputReply(dev: Device, s: Ctx, data: seq<byte>, env: Env)
    ensures var (t, rs) := InputsStep(dev, s, data, true, env);
            var accepted := s.reqType == CONFIRM_TRANSACTION && s.parsingInput < |s.tx.inputs| &&
                            s.parsingInput < s.tx.inputLen % 256 && IsInput(data);
            rs == [StatusWord(if accepted then 0x9000 else if s.reqType == CONFIRM_TRANSACTION then 0xB005 else 0xB007)] &&
            t.parsingInput == s.parsingInput + (if accepted then 1 else 0)
  {
    hide IsInput, StoreInput, ReviewStep;
    if s.parsingInput < |s.tx.inputs| {
      InputStoredIff(s, data);
    }
  }

  /** The commands that reach the transaction handlers, byte by byte. */
  lemma TransactionCommands(cmd: Command)
    ensures SignTxCommand(cmd) <==>
              && cmd.cla == 0xE0 && cmd.ins == 0x06
              && (|| (cmd.p1 == 0x00 && cmd.p2 == 0x80 && cmd.data != [])
                  || (cmd.p1 == 0x01 && cmd.p2 == 0x80 && cmd.data != [])
                  || (cmd.p1 == 0x02 && (cmd.p2 == 0x80 || cmd.p2 == 0x00) && cmd.data != [])
                  || (cmd.p1 == 0x03 && (cmd.p2 == 0x80 || cmd.p2 == 0x00)))
  {
  }

  // ----- what is refused, and how

  /** Why an output chunk is refused: no amount, no script form, or bytes behind the script. */
  lemma OutputRefused(s: Ctx, data: seq<byte>)
    requires s.reqType == CONFIRM_TRANSACTION && s.parsingOutput < 2 && s.parsingOutput < s.tx.outputLen % 256
    ensures var rs := OutputsStep(s, data).1;
            |data| < 8 ==> rs == [StatusWord(0x1_0000 - 31)]
    ensures var rs := OutputsStep(s, data).1;
            |data| >= 8 && FormLength(data[8..]) == 0 ==> rs == [StatusWord(0x1_0000 - 32)]
    ensures var rs := OutputsStep(s, data).1;
            |data| >= 8 && 0 < FormLength(data[8..]) < |data| - 8 ==> rs == [StatusWord(0x1_0000 - 30)]
  {
    hide FormLength, U64;
  }

  /** The end of the input chunks: the review without a reply, or a refusal of what was checked or shown. */
  lemma LastInputReply(dev: Device, s: Ctx, data: seq<byte>, env: Env)
    requires s.reqType == CONFIRM_TRANSACTION && s.screen == NoScreen && s.parsingInput < |s.tx.inputs|
    requires s.parsingInput < s.tx.inputLen % 256 && IsInput(data)
    ensures var (t, rs) := InputsStep(dev, s, data, false, env);
            var view := Extended(t.tx, env.beyond);
            if !Validated(dev, view, s.path, env.deriveError == 0) then t.screen == NoScreen && rs == [StatusWord(0xB005)]
            else if !env.displayOk then t.screen == NoScreen && rs == [StatusWord(0xB003)]
            else t.screen == TransactionScreen(ShownFor(view)) && rs == []
  {
    hide IsInput, ParseInput, Extended, Validated, ShownFor, PathAfterValidation;
    InputStoredIff(s, data);
  }

  /** A request that nothing was approved for wipes the session. */
  lemma RefusedRequest(dev: Device, s: Ctx, env: Env)
    requires !MaySign(s)
    ensures var (t, rs) := NextSignatureStep(dev, s, env);
            rs == [StatusWord(0xB007)] && t.state == STATE_NONE && t.reqType == CONFIRM_ADDRESS && t.screen == NoScreen &&
            t.tx.inputLen == 0 && t.tx.outputLen == 0 && t.signingIndex == 0 && t.path == [0, 0, 0, 0, 0] &&
            (forall k :: 0 <= k < |t.tx.inputs| ==> t.tx.inputs[k] == BLANK_INPUT)
  {
  }

  /** Rejecting a transaction: the approval is gone, the transaction stays. */
  lemma Rejected(dev: Device, s: Ctx, env: Env)
    requires s.screen.TransactionScreen?
    ensures var (t, rs) := Step(dev, s, Decision(false, env));
            rs == [StatusWord(0x6985)] && t.state == STATE_NONE && t.screen == NoScreen && t.tx == s.tx &&
            t.signingIndex == s.signingIndex
  {
    hide SignAndSend, ApduStep;
  }

  predicate SigningOutcome(s: Ctx, t: Ctx, rs: seq<Reply>, failed: bool) {
    |rs| == 1 &&
    if failed then t.state == STATE_NONE && t.signingIndex == s.signingIndex && rs[0].StatusWord?
    else t.state == s.state && t.signingIndex == (s.signingIndex as int + 1) % 256 && rs[0].TxSignature?
  }

  /** A signing error ends the approval, with the error as the reply. */
  lemma SigningFails(dev: Device, s: Ctx, env: Env)
    ensures SigningOutcome(s, SignAndSend(dev, s, env).0, SignAndSend(dev, s, env).1,
                           env.deriveError != 0 || env.generateError != 0 || env.signError != 0)
  {
    hide SigHash, Extended;
  }

  /** Commands the dispatcher itself refuses change nothing. */
  lemma Refused(dev: Device, s: Ctx, cmd: Command, env: Env)
    ensures cmd.cla != 0xE0 ==> ApduStep(dev, s, cmd, env) == (s, [StatusWord(0x6E00)])
    ensures cmd.cla == 0xE0 && cmd.ins !in {0x03, 0x04, 0x05, 0x06, 0x07} ==>
              ApduStep(dev, s, cmd, env) == (s, [StatusWord(0x6D00)])
    ensures cmd.cla == 0xE0 && cmd.ins == 0x06 && !SignTxGate(cmd.p1, cmd.p2) ==>
              ApduStep(dev, s, cmd, env) == (s, [StatusWord(0x6A86)])
    ensures cmd.cla == 0xE0 && cmd.ins == 0x06 && SignTxGate(cmd.p1, cmd.p2) && cmd.data == [] && cmd.p1 != 0x03 ==>
              ApduStep(dev, s, cmd, env) == (s, [StatusWord(0x6A87)])
  {
    hide NextSignatureStep, StartStep, OutputsStep, InputsStep, Cleared;
  }
}

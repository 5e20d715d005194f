/** A refused P1_START leaves the session open: when a signature can still follow it. */
module RefusedHeader {
  import opened Bytes
  import opened Transaction
  import opened Wire
  import opened Validation
  import opened SessionSpec
  import opened SessionSafety
  import opened LaterApprovals

  /** Without another reset, some run of commands and decisions is answered with a transaction signature. */
  ghost predicate CanSign(dev: Device, s: Ctx) {
    exists es, e ::
      IsRun(dev, s, es) && NoReset(dev, s, es) && Enabled(Run(dev, s, es), e) && !Resets(Run(dev, s, es), e) &&
      Signs(dev, Run(dev, s, es), e)
  }

  /** The guard of the validation on the counts as they are stored, whatever status the header got. */
  predicate CountsAllow(tx: Tx) {
    1 <= tx.outputLen <= 2 && tx.inputLen >= 1
  }

  /** Nothing has been sent since P1_START. */
  predicate Fresh(s: Ctx) {
    && s.reqType == CONFIRM_TRANSACTION && s.screen == NoScreen && s.parsingInput == 0 && s.parsingOutput == 0
    && s.signingIndex == 0 && s.tx.inputLen < 256 && s.tx.outputLen < 256
  }

  lemma StartIsFresh(s: Ctx, data: seq<byte>)
    ensures Fresh(StartStep(s, data).0)
  {
    hide U16, U32;
  }

  /** One last chunk brings a transaction whose change matches the path to review, and its approval is signed. */
  lemma MatchingSigns(dev: Device, s: Ctx) returns (es: seq<Event>, e: Event)
    requires s.reqType == CONFIRM_TRANSACTION && s.screen == NoScreen && s.signingIndex < 255
    requires CountsAllow(s.tx) && !InputsIn(s) && MatchesPath(dev, s)
    ensures IsRun(dev, s, es) && NoReset(dev, s, es) && Enabled(Run(dev, s, es), e) && !Resets(Run(dev, s, es), e)
    ensures Signs(dev, Run(dev, s, es), e)
  {
    hide Step, Enabled, Resets, Signs, MatchesPath;
    var f, _ := OpenInputReviews(dev, s);
    OneStepRun(dev, s, f);
    es, e := [f], Decision(true, WELL);
    ApprovalSigns(dev, Step(dev, s, f).0);
  }

  /** Two output chunks make the second output's key the one at the path. */
  lemma OutputsMatch(dev: Device, s: Ctx) returns (es: seq<Event>)
    requires Fresh(s) && s.tx.outputLen == 2
    ensures IsRun(dev, s, es) && NoReset(dev, s, es)
    ensures var t := Run(dev, s, es);
            t.reqType == s.reqType && t.screen == NoScreen && t.signingIndex == 0 && t.parsingInput == 0 &&
            t.tx.inputs == s.tx.inputs && t.tx.inputLen == s.tx.inputLen && t.tx.outputLen == 2 && MatchesPath(dev, t)
  {
    hide Step, Enabled, Resets, OutputChunk, KeyAt;
    var e := OutputChunk(Output(0, SchnorrScript(Zeros(32))));
    var _ := OpenOutputTakes(dev, s, Zeros(32));
    var t := Step(dev, s, e).0;
    var key := PathKey(dev, t);
    var _ := OpenOutputTakes(dev, t, key);
    TwoStepRun(dev, s, e, OutputChunk(Output(0, SchnorrScript(key))));
    es := [e, OutputChunk(Output(0, SchnorrScript(key)))];
  }

  lemma FreshSigns(dev: Device, s: Ctx)
    requires Fresh(s) && CountsAllow(s.tx)
    ensures CanSign(dev, s)
  {
    hide Step, Enabled, Resets, Signs, MatchesPath, Run, IsRun, NoReset;
    if s.tx.outputLen == 1 {
      OneOutputMatches(dev, s);
      var es, e := MatchingSigns(dev, s);
    } else {
      var es := OutputsMatch(dev, s);
      var fs, e := MatchingSigns(dev, Run(dev, s, es));
      RunConcat(dev, s, es, fs);
      assert Run(dev, s, es + fs) == Run(dev, Run(dev, s, es), fs);
    }
  }

  lemma OneOutputMatches(dev: Device, s: Ctx)
    requires s.tx.outputLen == 1
    ensures MatchesPath(dev, s)
  {
  }

  /** A signature is only sent in a context with counts the validation allows, and those stay since P1_START. */
  lemma SigningAllowed(dev: Device, s: Ctx, es: seq<Event>, e: Event)
    requires Consistent(s) && IsRun(dev, s, es) && NoReset(dev, s, es)
    requires Enabled(Run(dev, s, es), e) && !Resets(Run(dev, s, es), e) && Signs(dev, Run(dev, s, es), e)
    ensures CountsAllow(s.tx)
  {
    hide Step, Enabled, Resets, Signs, SlotsParsed;
    var t := Run(dev, s, es);
    RunConsistent(dev, s, es);
    SessionKept(dev, s, es);
    hide Run, IsRun, NoReset;
    StepConsistent(dev, t, e);
    SigningNeedsApproval(dev, t, e);
    StepKeepsSession(dev, t, e);
  }

  /** P1_START, accepted or refused, can be followed by a signature exactly when the stored counts pass the validation. */
  lemma StartSignsIff(dev: Device, s: Ctx, data: seq<byte>)
    ensures CanSign(dev, StartStep(s, data).0) <==> CountsAllow(StartStep(s, data).0.tx)
  {
    hide Step, Enabled, Resets, Signs, StartStep, Consistent, Fresh, CountsAllow, Run, IsRun, NoReset;
    var c := StartStep(s, data).0;
    StartIsFresh(s, data);
    StartConsistent(s, data);
    if CountsAllow(c.tx) {
      FreshSigns(dev, c);
    } else if CanSign(dev, c) {
      var es, e :| IsRun(dev, c, es) && NoReset(dev, c, es) && Enabled(Run(dev, c, es), e) && !Resets(Run(dev, c, es), e) &&
        Signs(dev, Run(dev, c, es), e);
      SigningAllowed(dev, c, es, e);
    }
  }

  /** A valid header with bytes behind it is refused, and yet a signature can follow. */
  lemma OverlongHeaderSigns(dev: Device, s: Ctx, h: Header, extra: seq<byte>)
    requires h.Valid(|s.tx.inputs|) && extra != []
    ensures StartStep(s, EncodeHeader(h) + extra).1 == [StatusWord(SW_TX_PARSING_FAIL)]
    ensures CanSign(dev, StartStep(s, EncodeHeader(h) + extra).0)
  {
    hide CanSign;
    OverlongHeader(s, h, extra);
    StartSignsIff(dev, s, EncodeHeader(h) + extra);
  }

  lemma OverlongHeader(s: Ctx, h: Header, extra: seq<byte>)
    requires h.Valid(|s.tx.inputs|) && extra != []
    ensures var (t, rs) := StartStep(s, EncodeHeader(h) + extra);
            rs == [StatusWord(SW_TX_PARSING_FAIL)] && HoldsHeader(h, t.tx, t.path)
  {
    hide EncodeHeader;
    var c := Cleared(s, CONFIRM_TRANSACTION);
    var rest, more := EncodeHeader(h), EncodeHeader(h) + extra;
    HeaderEncodedIsAccepted(h, c.tx, c.path, |c.tx.inputs|);
    assert |rest| == 13;
    assert more[..2] == rest[..2] && more[4..][1..5] == rest[4..][1..5] && more[4..][5..9] == rest[4..][5..9];
  }
}

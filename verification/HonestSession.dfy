/** A host that sends a whole transaction as it should gets the review, and after the approval every signature. */
module HonestSession {
  import opened Bytes
  import opened Transaction
  import opened Wire
  import opened Validation
  import Address
  import opened SighashSpec
  import opened SighashBinding
  import opened SessionSpec
  import opened SessionSafety

  /** What the host wants signed, and the number of input slots of the device. */
  datatype Plan = Plan(header: Header, outs: seq<Output>, ins: seq<Input>, slots: nat) {
    ghost predicate Sendable() {
      header.Valid(slots) && slots <= 255 && |outs| == header.outputLen && |ins| == header.inputLen && AllAccepted(outs)
    }

    /** Position of the approval: the header, all outputs and all inputs come first. */
    function ReviewAt(): nat {
      1 + |outs| + |ins|
    }

    /** The approval and the requests after it are answered with one signature each. */
    function Length(): nat {
      ReviewAt() + |ins|
    }
  }

  /** A slot after its chunk: the script in a cleared buffer, no sequence number. */
  function StoredOutput(o: Output): Output {
    Output(o.value, Script(o.script) + Zeros(SCRIPT_BUFFER - ScriptSize(o.script)))
  }

  function StoredInput(i: Input): Input {
    i.(sequence := 0)
  }

  /** The transaction with the first j outputs and the first k inputs stored. */
  function Partial(p: Plan, j: nat, k: nat): Tx
    requires j <= |p.outs| && k <= |p.ins|
  {
    Tx(p.header.version, p.header.account, p.header.inputLen, p.header.outputLen,
       seq(MAX_OUTPUTS, i requires 0 <= i => if i < j then StoredOutput(p.outs[i]) else BLANK_OUTPUT),
       seq(p.slots, i requires 0 <= i => if i < k then StoredInput(p.ins[i]) else BLANK_INPUT))
  }

  function Whole(p: Plan): Tx {
    Partial(p, |p.outs|, |p.ins|)
  }

  function SignTx(p1: byte, p2: byte, data: seq<byte>, env: Env): Event {
    Apdu(Command(CLA, SIGN_TX, p1, p2, data), env)
  }

  /** The j-th event: header, outputs, inputs, approval, further signatures. */
  function EventAt(p: Plan, j: nat, env: Env): Event {
    if j == 0 then SignTx(P1_START, P2_MORE, EncodeHeader(p.header), env)
    else if j <= |p.outs| then SignTx(P1_OUTPUTS, P2_MORE, EncodeOutput(p.outs[j - 1]), env)
    else if j < p.ReviewAt() then
      var k := j - |p.outs| - 1;
      SignTx(P1_INPUTS, if k == |p.ins| - 1 then P2_LAST else P2_MORE, EncodeInput(p.ins[k]), env)
    else if j == p.ReviewAt() then Decision(true, env)
    else SignTx(P1_NEXT_SIGNATURE, P2_LAST, [], env)
  }

  function Events(p: Plan, envs: nat -> Env, n: nat): (es: seq<Event>)
    ensures |es| == n
  {
    seq(n, j requires 0 <= j => EventAt(p, j, envs(j)))
  }

  /** The key at the header's change address. */
  function ChangeKey(dev: Device, h: Header): Bytes32 {
    KeyAt(dev, [Hardened(44), Hardened(111111), h.account, h.changeType, h.changeIndex])
  }

  /** The totals, as the device holds them, leave a fee, and the second output pays the header's change key. */
  predicate Payable(dev: Device, p: Plan) {
    && InTotal(p.ins) % TWO_64 >= OutTotal(p.outs) % TWO_64
    && (|p.outs| == 2 ==>
          var script := p.outs[1].script;
          script[0] == 0x20 && script[1..33] == ChangeKey(dev, p.header))
  }

  /** What the host expects the user to see. */
  function PlanShown(p: Plan): Shown
    requires p.outs != []
  {
    Shown(p.outs[0].value, Address.ScriptAddress(p.outs[0].script), Wrap(InTotal(p.ins) - OutTotal(p.outs)))
  }

  // ----- what the device stores

  lemma StoredScript(o: Output)
    requires IsAccepted(o.script)
    ensures IsAccepted(StoredOutput(o).script) && Script(StoredOutput(o).script) == Script(o.script)
    ensures ScriptSize(StoredOutput(o).script) == ScriptSize(o.script)
    ensures StoredOutput(o).script[..34] == o.script[..34]
  {
    var s, t, n := o.script, StoredOutput(o).script, ScriptSize(o.script);
    assert t[..n] == s[..n];
    assert forall i :: 0 <= i < n ==> t[i] == s[..n][i] == s[i];
  }

  lemma {:induction false} SameTotals(a: seq<Input>, b: seq<Input>)
    requires |a| == |b| && forall k :: 0 <= k < |a| ==> a[k].value == b[k].value
    ensures InTotal(a) == InTotal(b)
  {
    if a == [] {
    } else {
      SameTotals(a[..|a| - 1], b[..|b| - 1]);
    }
  }

  lemma {:induction false} SameOutTotals(a: seq<Output>, b: seq<Output>)
    requires |a| == |b| && forall k :: 0 <= k < |a| ==> a[k].value == b[k].value
    ensures OutTotal(a) == OutTotal(b)
  {
    if a == [] {
    } else {
      SameOutTotals(a[..|a| - 1], b[..|b| - 1]);
    }
  }

  /** The transaction on the device is the one planned, with sequence numbers 0. */
  lemma WholeIsPlan(p: Plan)
    requires p.Sendable()
    ensures Whole(p).InBounds() && SameOutputs(Whole(p).Outs(), p.outs) && AllAccepted(Whole(p).Outs())
    ensures |Whole(p).Ins()| == |p.ins|
    ensures forall k :: 0 <= k < |p.ins| ==> Whole(p).Ins()[k] == p.ins[k].(sequence := 0)
    ensures InTotal(Whole(p).Ins()) == InTotal(p.ins) && OutTotal(Whole(p).Outs()) == OutTotal(p.outs)
  {
    hide IsAccepted, StoredOutput, Script;
    var w := Whole(p);
    forall k | 0 <= k < |p.outs|
      ensures w.Outs()[k].value == p.outs[k].value && Script(w.Outs()[k].script) == Script(p.outs[k].script)
      ensures IsAccepted(w.Outs()[k].script)
    {
      StoredScript(p.outs[k]);
      assert w.Outs()[k] == StoredOutput(p.outs[k]);
      StoredValue(p.outs[k]);
    }
    SameTotals(w.Ins(), p.ins);
    SameOutTotals(w.Outs(), p.outs);
  }

  lemma StoredValue(o: Output)
    ensures StoredOutput(o).value == o.value
  {
  }

  lemma PlanCovers(p: Plan)
    requires p.Sendable()
    ensures Whole(p).InBounds() && (Covers(Whole(p).Ins(), Whole(p).Outs()) <==> InTotal(p.ins) % TWO_64 >= OutTotal(p.outs) % TWO_64)
  {
    hide AllAccepted, StoredOutput, InTotal, OutTotal, SameOutputs;
    WholeIsPlan(p);
  }

  /** The review of the stored transaction is that of the plan. */
  lemma ShownIsPlan(p: Plan)
    requires p.Sendable()
    ensures Whole(p).InBounds() && ShownFor(Whole(p)) == PlanShown(p)
  {
    hide IsAccepted, StoredOutput, Script, InTotal, OutTotal, Address.ScriptAddress, Wrap;
    WholeIsPlan(p);
    StoredValue(p.outs[0]);
    SameAddress(p.outs[0]);
    assert Whole(p).outputs[0] == StoredOutput(p.outs[0]);
  }

  lemma SameAddress(o: Output)
    requires IsAccepted(o.script)
    ensures Address.ScriptAddress(StoredOutput(o).script) == Address.ScriptAddress(o.script)
  {
    var s, t := StoredOutput(o).script, o.script;
    StoredScript(o);
    assert Address.Normalized(s) == Address.Normalized(t) by {
      var x, y := Script(s), Script(t);
      assert forall i :: 0 <= i < |x| ==> s[i] == x[i] && t[i] == y[i];
    }
    hide Address.ScriptAddress, Address.Normalized;
    Address.AddressDeterminesScript(s, t);
  }

  /** An encoded output lands in a blank slot as its stored form. */
  lemma OutputLands(o: Output)
    requires IsAccepted(o.script)
    ensures ParseOutput(EncodeOutput(o), BLANK_OUTPUT) == (PARSING_OK, StoredOutput(o))
  {
    OutputEncodedIsAccepted(o, BLANK_OUTPUT);
    var rest, q := EncodeOutput(o), ParseOutput(EncodeOutput(o), BLANK_OUTPUT).1;
    assert rest[8..] == Script(o.script);
    var n := ScriptSize(o.script);
    assert Zeros(SCRIPT_BUFFER)[n..] == Zeros(SCRIPT_BUFFER - n);
    assert FormLength(rest[8..]) == n && rest[8..][..n] == Script(o.script);
  }

  // ----- one event at a time

  /** The header and j outputs and k inputs are in. */
  predicate Loading(s: Ctx, p: Plan, j: nat, k: nat) {
    && j <= |p.outs| && k <= |p.ins| && s.tx == Partial(p, j, k)
    && s.reqType == CONFIRM_TRANSACTION && s.state == STATE_NONE && s.screen == NoScreen
    && s.path == [PURPOSE, COIN_TYPE, p.header.account, p.header.changeType, p.header.changeIndex]
    && s.signingIndex == 0 && s.parsingOutput == j && s.parsingInput == k
  }

  predicate Reviewing(s: Ctx, p: Plan) {
    s.tx == Whole(p) && s.reqType == CONFIRM_TRANSACTION && s.state == STATE_PARSED && s.signingIndex == 0 &&
    Whole(p).InBounds() && s.screen == TransactionScreen(ShownFor(Whole(p)))
  }

  /** k signatures have been sent. */
  predicate Signing(s: Ctx, p: Plan, k: nat) {
    s.tx == Whole(p) && s.reqType == CONFIRM_TRANSACTION && s.state == STATE_APPROVED && s.screen == NoScreen &&
    s.signingIndex == k
  }

  lemma StartLoads(dev: Device, s: Ctx, p: Plan, env: Env)
    requires p.Sendable() && |s.tx.inputs| == p.slots
    ensures Loading(Step(dev, s, EventAt(p, 0, env)).0, p, 0, 0)
  {
    hide ParseHeader;
    var c := Cleared(s, CONFIRM_TRANSACTION);
    HeaderEncodedIsAccepted(p.header, c.tx, c.path, p.slots);
    assert c.tx.outputs == Partial(p, 0, 0).outputs && c.tx.inputs == Partial(p, 0, 0).inputs;
  }

  lemma OutputLoads(dev: Device, s: Ctx, p: Plan, j: nat, env: Env)
    requires p.Sendable() && j < |p.outs| && Loading(s, p, j, 0)
    ensures Loading(Step(dev, s, EventAt(p, j + 1, env)).0, p, j + 1, 0)
  {
    hide ParseOutput, IsAccepted, StoredOutput;
    OutputLands(p.outs[j]);
    assert s.tx.outputs[j] == BLANK_OUTPUT;
    assert s.tx.outputs[j := StoredOutput(p.outs[j])] == Partial(p, j + 1, 0).outputs;
  }

  lemma InputStores(s: Ctx, p: Plan, k: nat)
    requires p.Sendable() && k < |p.ins| && Loading(s, p, |p.outs|, k)
    ensures StoreInput(s, EncodeInput(p.ins[k])).1
    ensures Loading(StoreInput(s, EncodeInput(p.ins[k])).0, p, |p.outs|, k + 1)
  {
    hide ParseInput, EncodeInput, StoredOutput;
    InputEncodedIsAccepted(p.ins[k], BLANK_INPUT);
    assert s.tx.inputs[k] == BLANK_INPUT;
    assert s.tx.inputs[k := StoredInput(p.ins[k])] == Partial(p, |p.outs|, k + 1).inputs;
  }

  lemma InputLoads(dev: Device, s: Ctx, p: Plan, k: nat, env: Env)
    requires p.Sendable() && k < |p.ins| && Loading(s, p, |p.outs|, k)
    ensures var t := StoreInput(s, EncodeInput(p.ins[k])).0;
            Loading(t, p, |p.outs|, k + 1) &&
            Step(dev, s, EventAt(p, |p.outs| + k + 1, env)).0 ==
              if k == |p.ins| - 1 then ReviewStep(dev, t, env).0 else t
  {
    hide ParseInput, EncodeInput, StoreInput, ReviewStep, ParseHeader, ParseOutput, SigHash;
    InputStores(s, p, k);
    InputNotEmpty(p.ins[k]);
  }

  /** The last input brings up the review exactly when the plan is payable. */
  lemma ReviewRises(dev: Device, s: Ctx, p: Plan, env: Env)
    requires p.Sendable() && Healthy(env) && Loading(s, p, |p.outs|, |p.ins|)
    ensures var t := ReviewStep(dev, s, env).0;
            (Payable(dev, p) ==> Reviewing(t, p)) && (!Payable(dev, p) ==> t.screen == NoScreen)
  {
    hide Covers, IsAccepted, StoredOutput, AllAccepted, ShownFor;
    PlanCovers(p);
    if |p.outs| == 2 {
      assert s.tx.outputs[1] == StoredOutput(p.outs[1]);
      ScriptStays(p, 1);
    }
  }

  lemma ScriptStays(p: Plan, k: nat)
    requires p.Sendable() && k < |p.outs|
    ensures var a, b := StoredOutput(p.outs[k]).script, p.outs[k].script;
            a[0] == b[0] && a[1..33] == b[1..33]
  {
    hide IsAccepted, StoredOutput;
    var a, b := StoredOutput(p.outs[k]).script, p.outs[k].script;
    StoredScript(p.outs[k]);
    assert a[0] == a[..34][0] && b[0] == b[..34][0];
    assert a[1..33] == a[..34][1..33] && b[1..33] == b[..34][1..33];
  }

  /** The replies are one signature: the device's for declared input k of the planned transaction. */
  predicate SignsPlanned(dev: Device, p: Plan, k: nat, nonce: nat, rs: seq<Reply>) {
    hide SigHash, Partial;
    |rs| == 1 && Whole(p).InBounds() && k < Whole(p).inputLen <= 255 && IsSignatureOf(dev, Whole(p), k, nonce, rs[0])
  }

  lemma SendSignsInput(dev: Device, s: Ctx, p: Plan, k: nat, env: Env)
    requires p.Sendable() && Healthy(env) && Signing(s, p, k) && k < |p.ins|
    ensures Signing(SignAndSend(dev, s, env).0, p, k + 1)
    ensures SignsPlanned(dev, p, k, env.nonce, SignAndSend(dev, s, env).1)
  {
    hide SigHash, StoredOutput, StoredInput, AllAccepted;
  }

  lemma ApprovalSigns(dev: Device, s: Ctx, p: Plan, env: Env)
    requires p.Sendable() && Healthy(env) && Reviewing(s, p)
    ensures Signing(Step(dev, s, Decision(true, env)).0, p, 1)
    ensures SignsPlanned(dev, p, 0, env.nonce, Step(dev, s, Decision(true, env)).1)
  {
    hide SignAndSend, SignsPlanned, Partial, AllAccepted, ShownFor, ApduStep;
    SendSignsInput(dev, s.(screen := NoScreen, state := STATE_APPROVED), p, 0, env);
  }

  lemma RequestSigns(dev: Device, s: Ctx, p: Plan, k: nat, env: Env)
    requires p.Sendable() && Healthy(env) && Signing(s, p, k) && k < |p.ins|
    ensures var e := SignTx(P1_NEXT_SIGNATURE, P2_LAST, [], env);
            Signing(Step(dev, s, e).0, p, k + 1) && SignsPlanned(dev, p, k, env.nonce, Step(dev, s, e).1)
  {
    hide SignAndSend, SignsPlanned, Partial, AllAccepted, ParseHeader, ParseOutput, ParseInput, ReviewStep;
    SendSignsInput(dev, s, p, k, env);
  }

  // ----- the whole session

  /** Where the session stands after n events. */
  ghost predicate At(dev: Device, s: Ctx, p: Plan, n: nat) {
    if n == 0 then s.screen == NoScreen && |s.tx.inputs| == p.slots
    else if n <= |p.outs| + 1 then Loading(s, p, n - 1, 0)
    else if n < p.ReviewAt() then Loading(s, p, |p.outs|, n - |p.outs| - 1)
    else if n == p.ReviewAt() then if Payable(dev, p) then Reviewing(s, p) else s.screen == NoScreen
    else n <= p.Length() && Signing(s, p, n - p.ReviewAt())
  }

  lemma LoadingAdvances(dev: Device, s: Ctx, p: Plan, n: nat, env: Env)
    requires p.Sendable() && Healthy(env) && At(dev, s, p, n) && n < p.ReviewAt()
    ensures Enabled(s, EventAt(p, n, env)) && At(dev, Step(dev, s, EventAt(p, n, env)).0, p, n + 1)
  {
    hide Step, EncodeHeader, EncodeOutput, EncodeInput, Payable, AllAccepted, Reviewing, Signing;
    if n == 0 {
      StartLoads(dev, s, p, env);
    } else if n <= |p.outs| {
      OutputLoads(dev, s, p, n - 1, env);
    } else {
      var k := n - |p.outs| - 1;
      InputLoads(dev, s, p, k, env);
      if k == |p.ins| - 1 {
        ReviewRises(dev, StoreInput(s, EncodeInput(p.ins[k])).0, p, env);
      }
    }
  }

  lemma SigningAdvances(dev: Device, s: Ctx, p: Plan, n: nat, env: Env)
    requires p.Sendable() && Healthy(env) && At(dev, s, p, n) && p.ReviewAt() <= n < p.Length() && Payable(dev, p)
    ensures Enabled(s, EventAt(p, n, env)) && At(dev, Step(dev, s, EventAt(p, n, env)).0, p, n + 1)
    ensures SignsPlanned(dev, p, n - p.ReviewAt(), env.nonce, Step(dev, s, EventAt(p, n, env)).1)
  {
    hide Step, EncodeHeader, EncodeOutput, EncodeInput, Payable, SignsPlanned, AllAccepted, Loading;
    if n == p.ReviewAt() {
      ApprovalSigns(dev, s, p, env);
    } else {
      RequestSigns(dev, s, p, n - p.ReviewAt(), env);
    }
  }

  lemma Advance(dev: Device, s: Ctx, p: Plan, n: nat, env: Env)
    requires p.Sendable() && Healthy(env) && At(dev, s, p, n)
    requires n < p.ReviewAt() || (n < p.Length() && Payable(dev, p))
    ensures Enabled(s, EventAt(p, n, env)) && At(dev, Step(dev, s, EventAt(p, n, env)).0, p, n + 1)
    ensures n >= p.ReviewAt() ==> SignsPlanned(dev, p, n - p.ReviewAt(), env.nonce, Step(dev, s, EventAt(p, n, env)).1)
  {
    hide Step, EventAt, Payable, SignsPlanned, At, Healthy, Enabled;
    if n < p.ReviewAt() {
      LoadingAdvances(dev, s, p, n, env);
    } else {
      SigningAdvances(dev, s, p, n, env);
    }
  }

  ghost predicate AllHealthy(envs: nat -> Env) {
    forall j :: Healthy(envs(j))
  }

  lemma EventsExtend(p: Plan, envs: nat -> Env, n: nat)
    ensures Events(p, envs, n + 1) == Events(p, envs, n) + [EventAt(p, n, envs(n))]
  {
    hide EventAt;
  }

  lemma RunExtend(dev: Device, s: Ctx, es: seq<Event>, e: Event)
    requires IsRun(dev, s, es) && Enabled(Run(dev, s, es), e)
    ensures IsRun(dev, s, es + [e]) && Run(dev, s, es + [e]) == Step(dev, Run(dev, s, es), e).0
  {
    hide Step, Enabled;
    assert (es + [e])[..|es|] == es;
  }

  /** The session has run through its first n events. */
  ghost predicate RunTo(dev: Device, s: Ctx, p: Plan, envs: nat -> Env, n: nat) {
    IsRun(dev, s, Events(p, envs, n)) && At(dev, Run(dev, s, Events(p, envs, n)), p, n)
  }

  lemma NextEvent(dev: Device, s: Ctx, p: Plan, envs: nat -> Env, n: nat)
    requires p.Sendable() && Healthy(envs(n)) && RunTo(dev, s, p, envs, n)
    requires n < p.ReviewAt() || (n < p.Length() && Payable(dev, p))
    ensures RunTo(dev, s, p, envs, n + 1)
  {
    hide Step, Enabled, At, Payable, EventAt, Plan.Sendable, Healthy, Run, IsRun, Events;
    var es := Events(p, envs, n);
    Advance(dev, Run(dev, s, es), p, n, envs(n));
    EventsExtend(p, envs, n);
    RunExtend(dev, s, es, EventAt(p, n, envs(n)));
  }

  lemma NoEvents(dev: Device, s: Ctx, p: Plan, envs: nat -> Env)
    requires At(dev, s, p, 0)
    ensures RunTo(dev, s, p, envs, 0)
  {
    hide At;
    assert Events(p, envs, 0) == [];
  }

  lemma {:induction false} SessionAt(dev: Device, s: Ctx, p: Plan, envs: nat -> Env, n: nat)
    requires p.Sendable() && AllHealthy(envs) && At(dev, s, p, 0)
    requires n <= p.ReviewAt() || (n <= p.Length() && Payable(dev, p))
    ensures RunTo(dev, s, p, envs, n)
    decreases n
  {
    hide At, Payable, Plan.Sendable, Healthy, RunTo;
    if n == 0 {
      NoEvents(dev, s, p, envs);
    } else {
      SessionAt(dev, s, p, envs, n - 1);
      NextEvent(dev, s, p, envs, n - 1);
    }
  }

  /** After header, outputs and inputs the review is on screen exactly when the plan is payable, and shows the plan. */
  lemma ReviewIffPayable(dev: Device, s: Ctx, p: Plan, envs: nat -> Env)
    requires p.Sendable() && AllHealthy(envs) && s.screen == NoScreen && |s.tx.inputs| == p.slots
    ensures var es := Events(p, envs, p.ReviewAt());
            IsRun(dev, s, es) && (Run(dev, s, es).screen.TransactionScreen? <==> Payable(dev, p)) &&
            (Payable(dev, p) ==> Run(dev, s, es).screen.shown == PlanShown(p))
  {
    hide PlanShown, ShownFor, Payable, Loading, AllAccepted, Step, Enabled, EventAt, AllHealthy;
    ShownIsPlan(p);
    SessionAt(dev, s, p, envs, p.ReviewAt());
  }

  /** So the check of the totals lets a review through that shows a fee of 5 where 2^64 - 5 is missing. */
  lemma OverspendShown(dev: Device, s: Ctx, p: Plan, envs: nat -> Env)
    requires p.Sendable() && AllHealthy(envs) && s.screen == NoScreen && |s.tx.inputs| == p.slots
    requires |p.ins| == 1 && p.ins[0].value == 5
    requires |p.outs| == 2 && p.outs[0].value == p.outs[1].value == 0x8000_0000_0000_0000
    requires p.outs[1].script[0] == 0x20
    requires p.outs[1].script[1..33] == ChangeKey(dev, p.header)
    ensures var t := Run(dev, s, Events(p, envs, p.ReviewAt()));
            t.screen.TransactionScreen? && t.screen.shown.fees == 5
  {
    hide Plan.Sendable, Step, Enabled, EventAt, AllHealthy, InTotal, OutTotal, IsRun, Run, Address.ScriptAddress;
    OverspendCovered(p.ins, p.outs);
    ReviewIffPayable(dev, s, p, envs);
  }

  /** A payable plan, once approved, is answered with one signature for each of its inputs, in order. */
  lemma EveryInputSigned(dev: Device, s: Ctx, p: Plan, envs: nat -> Env, k: nat)
    requires p.Sendable() && AllHealthy(envs) && s.screen == NoScreen && |s.tx.inputs| == p.slots
    requires Payable(dev, p) && k < |p.ins|
    ensures var es, n := Events(p, envs, p.Length()), p.ReviewAt() + k;
            IsRun(dev, s, es) &&
            SignsPlanned(dev, p, k, envs(n).nonce, Step(dev, After(dev, s, es, n), EventAt(p, n, envs(n))).1)
  {
    hide Step, Enabled, Payable, EventAt, SignsPlanned, Plan.Sendable, Healthy;
    var n := p.ReviewAt() + k;
    assert At(dev, s, p, 0);
    hide At;
    SessionAt(dev, s, p, envs, p.Length());
    SessionAt(dev, s, p, envs, n);
    assert Events(p, envs, p.Length())[..n] == Events(p, envs, n);
    Advance(dev, After(dev, s, Events(p, envs, p.Length()), n), p, n, envs(n));
  }

  /**
   * The numbering does not stop at the last input: one request more is answered with a signature too, announcing 255
   * more, for the slot behind it, which is blank or not part of the array.
   */
  lemma OneTooMany(dev: Device, s: Ctx, p: Plan, envs: nat -> Env, env: Env)
    requires p.Sendable() && AllHealthy(envs) && s.screen == NoScreen && |s.tx.inputs| == p.slots
    requires Payable(dev, p) && Healthy(env)
    ensures var t, e := Run(dev, s, Events(p, envs, p.Length())), NextRequest(env);
            var rs, n := Step(dev, t, e).1, |p.ins|;
            IsRun(dev, s, Events(p, envs, p.Length())) && Enabled(t, e) &&
            Signs(dev, t, e) && rs[0].inputIndex == n && rs[0].hasMore == 255 &&
            t.tx == Whole(p) && IsSighashOf(dev, t.tx, rs[0], env.beyond) &&
            InputAt(t.tx, n, env.beyond) == if n < p.slots then BLANK_INPUT else env.beyond.ins(n)
  {
    hide Step, Signs, Quiet, Payable, EventAt, AllAccepted, SigHash, Healthy, Extended, Loading, Reviewing;
    SessionAt(dev, s, p, envs, p.Length());
    var t := Run(dev, s, Events(p, envs, p.Length()));
    hide AllHealthy, IsRun, Run;
    assert Signing(t, p, |p.ins|);
    NextRequestSigns(dev, t, env);
    SigningStep(dev, t, NextRequest(env));
  }
}

/** The signing session as a step function: APDU commands and the user's decisions on the global context. */
module SessionSpec {
  import opened Bytes
  import opened Transaction
  import opened Wire
  import opened Address
  import opened Validation
  import opened SighashSpec

  const CLA: byte := 0xE0
  const GET_VERSION: byte := 0x03
  const GET_APP_NAME: byte := 0x04
  const GET_PUBLIC_KEY: byte := 0x05
  const SIGN_TX: byte := 0x06
  const SIGN_MESSAGE: byte := 0x07

  const P1_START: byte := 0x00
  const P1_OUTPUTS: byte := 0x01
  const P1_INPUTS: byte := 0x02
  const P1_NEXT_SIGNATURE: byte := 0x03
  const P2_LAST: byte := 0x00
  const P2_MORE: byte := 0x80

  const SW_OK: u16 := 0x9000
  const SW_DENY: u16 := 0x6985
  const SW_WRONG_P1P2: u16 := 0x6A86
  const SW_WRONG_DATA_LENGTH: u16 := 0x6A87
  const SW_INS_NOT_SUPPORTED: u16 := 0x6D00
  const SW_CLA_NOT_SUPPORTED: u16 := 0x6E00
  const SW_DISPLAY_AMOUNT_FAIL: u16 := 0xB003
  const SW_TX_PARSING_FAIL: u16 := 0xB005
  const SW_BAD_STATE: u16 := 0xB007

  datatype State = STATE_NONE | STATE_PARSED | STATE_APPROVED
  datatype Request = CONFIRM_ADDRESS | CONFIRM_TRANSACTION | CONFIRM_MESSAGE

  /** The review on screen, if any. */
  datatype Screen = NoScreen | AddressScreen | TransactionScreen(shown: Shown) | MessageScreen

  /** What a transaction review tells the user. */
  datatype Shown = Shown(amount: u64, address: seq<byte>, fees: u64)

  /** The two fixed-size arrays of the transaction; the input count of the build fits a byte. */
  type SlotTx = t: Tx | |t.outputs| == MAX_OUTPUTS && 1 <= |t.inputs| <= 255
    witness BlankTx(1)

  /** G_context, and what is on screen. Outside CONFIRM_TRANSACTION the transaction part is unused. */
  datatype Ctx = Ctx(state: State, reqType: Request, tx: SlotTx, path: Path, pathLen: u8, signingIndex: u8,
                     parsingInput: u8, parsingOutput: u8, sighash: Bytes32, signature: Signature, screen: Screen)

  /** explicit_bzero of G_context, then the request type. */
  function Cleared(s: Ctx, req: Request): Ctx {
    Ctx(STATE_NONE, req, BlankTx(|s.tx.inputs|), [0, 0, 0, 0, 0], 0, 0, 0, 0, Zeros(32), Zeros(64), NoScreen)
  }

  /** Whatever memory lies after the two arrays. */
  datatype Beyond = Beyond(ins: nat -> Input, outs: nat -> Output)

  /** What the environment decides during one step: foreign calls may fail, text may not fit the display. */
  datatype Env = Env(deriveError: int, generateError: int, signError: int, nonce: nat, displayOk: bool,
                     otherOk: bool, otherPath: Path, otherPathLen: u8, beyond: Beyond)

  datatype Command = Command(cla: byte, ins: byte, p1: byte, p2: byte, data: seq<byte>)

  datatype Event = Apdu(cmd: Command, env: Env) | Decision(approve: bool, env: Env)

  datatype Reply =
    | StatusWord(sw: u16)
    | TxSignature(hasMore: u8, inputIndex: u8, signature: Signature, sighash: Bytes32)
    | OtherReply

  /** io_send_sw with an int argument keeps 16 bits. */
  function SendSw(code: int): Reply {
    StatusWord(code % 0x1_0000)
  }

  function InputAt(tx: SlotTx, i: nat, b: Beyond): Input {
    if i < |tx.inputs| then tx.inputs[i] else b.ins(i)
  }

  /** The transaction as loops over the declared counts read it. */
  function Extended(tx: SlotTx, b: Beyond): (t: Tx)
    ensures t.InBounds() && tx.inputs <= t.inputs && tx.outputs <= t.outputs
    ensures tx.InBounds() ==> t == tx
  {
    var ins := if tx.inputLen <= |tx.inputs| then tx.inputs
               else tx.inputs + seq(tx.inputLen - |tx.inputs|, i requires 0 <= i => b.ins(|tx.inputs| + i));
    var outs := if tx.outputLen <= |tx.outputs| then tx.outputs
                else tx.outputs + seq(tx.outputLen - |tx.outputs|, i requires 0 <= i => b.outs(|tx.outputs| + i));
    tx.(inputs := ins, outputs := outs)
  }

  // ----- crypto_sign_transaction and its two callers

  function SigningPath(tx: SlotTx, i: Input): Path {
    [PURPOSE, COIN_TYPE, tx.account, i.addressType, i.addressIndex]
  }

  /** The x coordinate of the key at a path. */
  function KeyAt(dev: Device, path: Path): Bytes32 {
    dev.pub(path)[..32]
  }

  /** crypto_sign_transaction: the new context and the error, 0 for success. */
  function CryptoSign(dev: Device, s: Ctx, env: Env): (Ctx, int) {
    hide SigHash;
    var txin := InputAt(s.tx, s.signingIndex, env.beyond);
    var path := SigningPath(s.tx, txin);
    var a := s.(path := path, pathLen := 5);
    if env.deriveError != 0 then (a, env.deriveError)
    else
      var b := a.(sighash := Zeros(32), signature := Zeros(64));
      if env.generateError != 0 then (b, env.generateError)
      else
        var c := b.(sighash := SigHash(Extended(s.tx, env.beyond), txin, KeyAt(dev, path)));
        if env.signError != 0 then (c, env.signError)
        else (c.(signature := dev.sign(path, c.sighash, env.nonce)), 0)
  }

  /** helper_send_response_sig. */
  function SigReply(s: Ctx): Reply {
    TxSignature((s.tx.inputLen - s.signingIndex - 1) % 256, s.signingIndex, s.signature, s.sighash)
  }

  /** The 100 response bytes of a signature: has_more, index, and both strings with their lengths. */
  function ResponseBytes(hasMore: u8, inputIndex: u8, signature: Signature, sighash: Bytes32): (r: seq<byte>)
    ensures |r| == 100
  {
    [hasMore, inputIndex, 64] + signature + [32] + sighash
  }

  /** What a host reads out of the response. */
  function ReadResponse(resp: seq<byte>): Reply
    requires |resp| == 100
  {
    TxSignature(resp[0], resp[1], resp[3..67], resp[68..])
  }

  lemma ResponseRoundTrip(h: u8, i: u8, s: Signature, d: Bytes32)
    ensures ReadResponse(ResponseBytes(h, i, s, d)) == TxSignature(h, i, s, d)
  {
    var r := ResponseBytes(h, i, s, d);
    assert r[3..67] == s && r[68..] == d;
  }

  /** sign_input_and_send, and the same lines of validate_transaction. */
  function SignAndSend(dev: Device, s: Ctx, env: Env): (Ctx, seq<Reply>) {
    hide CryptoSign;
    var (t, error) := CryptoSign(dev, s, env);
    if error != 0 then (t.(state := STATE_NONE), [SendSw(error)])
    else (t.(signingIndex := (s.signingIndex as int + 1) % 256), [SigReply(t)])
  }

  // ----- handler_sign_tx

  function StartStep(s: Ctx, data: seq<byte>): (Ctx, seq<Reply>) {
    var c := Cleared(s, CONFIRM_TRANSACTION);
    var (status, tx, path) := ParseHeader(data, c.tx, c.path, |c.tx.inputs|);
    (c.(tx := tx, path := path), [StatusWord(if status == PARSING_OK then SW_OK else SW_TX_PARSING_FAIL)])
  }

  function OutputsStep(s: Ctx, data: seq<byte>): (Ctx, seq<Reply>) {
    if s.reqType != CONFIRM_TRANSACTION then (s, [StatusWord(SW_BAD_STATE)])
    else if s.parsingOutput >= MAX_OUTPUTS || s.parsingOutput >= s.tx.outputLen % 256 then
      (s, [StatusWord(SW_TX_PARSING_FAIL)])
    else
      var k := s.parsingOutput;
      var (status, o) := ParseOutput(data, s.tx.outputs[k]);
      var t := s.(tx := s.tx.(outputs := s.tx.outputs[k := o]));
      if status != PARSING_OK then (t, [SendSw(status.Code())])
      else (t.(parsingOutput := k + 1), [StatusWord(SW_OK)])
  }

  /** The first output's amount and address, and what calc_fees gives. */
  function ShownFor(tx: Tx): Shown
    requires tx.InBounds() && tx.outputs != []
  {
    Shown(tx.outputs[0].value, ScriptAddress(tx.outputs[0].script), Wrap(InTotal(tx.Ins()) - OutTotal(tx.Outs())))
  }

  /** tx_validate_parsed_transaction, then ui_display_transaction. */
  function ReviewStep(dev: Device, s: Ctx, env: Env): (Ctx, seq<Reply>) {
    var view := Extended(s.tx, env.beyond);
    var t := s.(path := PathAfterValidation(view, s.path),
                pathLen := if view.outputLen == 2 && view.inputLen >= 1 && view.outputs[1].script[0] == 0x20 then 5
                           else s.pathLen);
    if !Validated(dev, view, s.path, env.deriveError == 0) then (t, [StatusWord(SW_TX_PARSING_FAIL)])
    else if !env.displayOk then (t.(state := STATE_PARSED), [StatusWord(SW_DISPLAY_AMOUNT_FAIL)])
    else (t.(state := STATE_PARSED, screen := TransactionScreen(ShownFor(view))), [])
  }

  /** Storing an input chunk: the new context, and whether it was accepted. */
  function StoreInput(s: Ctx, data: seq<byte>): (Ctx, bool)
    requires s.parsingInput < |s.tx.inputs|
  {
    var k := s.parsingInput;
    var (status, i) := ParseInput(data, s.tx.inputs[k]);
    var t := s.(tx := s.tx.(inputs := s.tx.inputs[k := i]));
    if status.Code() < 0 then (t, false) else (t.(parsingInput := (k as int + 1) % 256), true)
  }

  function InputsStep(dev: Device, s: Ctx, data: seq<byte>, more: bool, env: Env): (Ctx, seq<Reply>) {
    if s.reqType != CONFIRM_TRANSACTION then (s, [StatusWord(SW_BAD_STATE)])
    else if s.parsingInput >= |s.tx.inputs| || s.parsingInput >= s.tx.inputLen % 256 then
      (s, [StatusWord(SW_TX_PARSING_FAIL)])
    else
      var (t, stored) := StoreInput(s, data);
      if !stored then (t, [StatusWord(SW_TX_PARSING_FAIL)])
      else if more then (t, [StatusWord(SW_OK)])
      else ReviewStep(dev, t, env)
  }

  predicate MaySign(s: Ctx) {
    s.reqType == CONFIRM_TRANSACTION && s.state == STATE_APPROVED
  }

  function NextSignatureStep(dev: Device, s: Ctx, env: Env): (Ctx, seq<Reply>) {
    if !MaySign(s) then (Cleared(s, CONFIRM_ADDRESS), [StatusWord(SW_BAD_STATE)])
    else SignAndSend(dev, s, env)
  }

  /** The P1 and P2 combinations apdu_dispatcher lets through for SIGN_TX. */
  predicate SignTxGate(p1: byte, p2: byte) {
    && p1 <= P1_NEXT_SIGNATURE && (p2 == P2_LAST || p2 == P2_MORE)
    && (p1 == P1_START || p1 == P1_OUTPUTS ==> p2 == P2_MORE)
  }

  function SignTxStep(dev: Device, s: Ctx, cmd: Command, env: Env): (Ctx, seq<Reply>) {
    if !SignTxGate(cmd.p1, cmd.p2) then (s, [StatusWord(SW_WRONG_P1P2)])
    else if cmd.data == [] && cmd.p1 != P1_NEXT_SIGNATURE then (s, [StatusWord(SW_WRONG_DATA_LENGTH)])
    else if cmd.p1 == P1_START then StartStep(s, cmd.data)
    else if cmd.p1 == P1_OUTPUTS then OutputsStep(s, cmd.data)
    else if cmd.p1 == P1_INPUTS then InputsStep(dev, s, cmd.data, cmd.p2 == P2_MORE, env)
    else NextSignatureStep(dev, s, env)
  }

  /** GET_PUBLIC_KEY: the context is cleared first; path parsing and key derivation are the environment's. */
  function GetPublicKeyStep(s: Ctx, cmd: Command, env: Env): (Ctx, seq<Reply>) {
    if cmd.p1 > 1 || cmd.p2 > 0 then (s, [StatusWord(SW_WRONG_P1P2)])
    else if cmd.data == [] then (s, [StatusWord(SW_WRONG_DATA_LENGTH)])
    else
      var c := Cleared(s, CONFIRM_ADDRESS).(path := env.otherPath, pathLen := env.otherPathLen);
      if env.otherOk && cmd.p1 == 1 && env.displayOk then (c.(screen := AddressScreen), []) else (c, [OtherReply])
  }

  /** SIGN_MESSAGE: the context is cleared first; message parsing is the environment's, and sets the path at its end. */
  function SignMessageStep(s: Ctx, env: Env): (Ctx, seq<Reply>) {
    var c := Cleared(s, CONFIRM_MESSAGE);
    if !env.otherOk then (c, [OtherReply])
    else
      var t := c.(path := env.otherPath, pathLen := 5);
      if env.displayOk then (t.(screen := MessageScreen), []) else (t, [OtherReply])
  }

  /** apdu_dispatcher. */
  function ApduStep(dev: Device, s: Ctx, cmd: Command, env: Env): (Ctx, seq<Reply>) {
    if cmd.cla != CLA then (s, [StatusWord(SW_CLA_NOT_SUPPORTED)])
    else if cmd.ins == GET_VERSION || cmd.ins == GET_APP_NAME then
      (s, [if cmd.p1 != 0 || cmd.p2 != 0 then StatusWord(SW_WRONG_P1P2) else OtherReply])
    else if cmd.ins == GET_PUBLIC_KEY then GetPublicKeyStep(s, cmd, env)
    else if cmd.ins == SIGN_TX then SignTxStep(dev, s, cmd, env)
    else if cmd.ins == SIGN_MESSAGE then SignMessageStep(s, env)
    else (s, [StatusWord(SW_INS_NOT_SUPPORTED)])
  }

  /** validate_transaction, validate_message and validate_pubkey, by the review that is on screen. */
  function DecisionStep(dev: Device, s: Ctx, approve: bool, env: Env): (Ctx, seq<Reply>) {
    var c := s.(screen := NoScreen);
    match s.screen
    case TransactionScreen(_) =>
      if approve then SignAndSend(dev, c.(state := STATE_APPROVED), env)
      else (c.(state := STATE_NONE), [StatusWord(SW_DENY)])
    case MessageScreen =>
      if approve && env.signError == 0 then (c.(state := STATE_APPROVED), [OtherReply])
      else (c.(state := STATE_NONE), [if approve then SendSw(env.signError) else StatusWord(SW_DENY)])
    case _ => (c, [if approve then OtherReply else StatusWord(SW_DENY)])
  }

  function Step(dev: Device, s: Ctx, e: Event): (Ctx, seq<Reply>) {
    match e
    case Apdu(cmd, env) => ApduStep(dev, s, cmd, env)
    case Decision(approve, env) => DecisionStep(dev, s, approve, env)
  }

  /** While a review is on screen only the user's decision arrives, otherwise only commands do. */
  predicate Enabled(s: Ctx, e: Event) {
    e.Decision? <==> s.screen != NoScreen
  }

  /** The context at power-up: all zero. */
  function Initial(maxInputs: nat): Ctx
    requires 1 <= maxInputs <= 255
  {
    Ctx(STATE_NONE, CONFIRM_ADDRESS, BlankTx(maxInputs), [0, 0, 0, 0, 0], 0, 0, 0, 0, Zeros(32), Zeros(64), NoScreen)
  }

  /** The context after a whole run. */
  function Run(dev: Device, s: Ctx, es: seq<Event>): Ctx {
    if es == [] then s else Step(dev, Run(dev, s, es[..|es| - 1]), es[|es| - 1]).0
  }

  /** Every event of the run is enabled where it happens. */
  predicate IsRun(dev: Device, s: Ctx, es: seq<Event>) {
    es == [] || (IsRun(dev, s, es[..|es| - 1]) && Enabled(Run(dev, s, es[..|es| - 1]), es[|es| - 1]))
  }

  // ----- what every step keeps

  /** Scripts in the slots are blank or of an accepted form. */
  predicate SlotsParsed(tx: Tx) {
    forall k :: 0 <= k < |tx.outputs| ==> tx.outputs[k].script == Zeros(SCRIPT_BUFFER) || IsAccepted(tx.outputs[k].script)
  }

  /** The global invariant. */
  predicate Consistent(s: Ctx) {
    && SlotsParsed(s.tx)
    && (s.reqType == CONFIRM_TRANSACTION && s.state != STATE_NONE ==> 1 <= s.tx.outputLen <= 2 && s.tx.inputLen >= 1)
    && (s.screen.TransactionScreen? ==> s.reqType == CONFIRM_TRANSACTION && s.state == STATE_PARSED)
    && (s.screen == AddressScreen ==> s.reqType == CONFIRM_ADDRESS)
    && (s.screen == MessageScreen ==> s.reqType == CONFIRM_MESSAGE)
  }

  lemma BlankSlots(n: nat)
    ensures SlotsParsed(BlankTx(n))
  {
  }

  lemma InitialConsistent(maxInputs: nat)
    requires 1 <= maxInputs <= 255
    ensures Consistent(Initial(maxInputs))
  {
    BlankSlots(maxInputs);
  }

  lemma ClearedConsistent(s: Ctx, req: Request)
    ensures Consistent(Cleared(s, req))
  {
    BlankSlots(|s.tx.inputs|);
  }

  /** Hashing reads no script past its buffer. */
  lemma ConsistentSound(s: Ctx, b: Beyond)
    requires Consistent(s) && s.tx.outputLen <= 2
    ensures Sound(Extended(s.tx, b))
  {
    var t := Extended(s.tx, b);
    forall k | 0 <= k < t.outputLen ensures Hashable(t.outputs[k]) {
      assert t.outputs[k] == s.tx.outputs[k];
    }
  }

  lemma SigningConsistent(dev: Device, s: Ctx, env: Env)
    requires Consistent(s) && MaySign(s)
    ensures Consistent(CryptoSign(dev, s, env).0) && Sound(Extended(s.tx, env.beyond))
  {
    hide SigHash;
    ConsistentSound(s, env.beyond);
  }

  /** A parsed chunk leaves the slot's script as it was or of an accepted form. */
  lemma ParsedScript(data: seq<byte>, o: Output)
    ensures var p := ParseOutput(data, o).1; p.script == o.script || IsAccepted(p.script)
  {
    if |data| >= 8 {
      var r, n := data[8..], FormLength(data[8..]);
      if n > 0 {
        var s := r[..n] + o.script[n..];
        assert s[0] == r[0] && s[1] == r[1] && s[33] == r[33];
        assert n == 35 ==> s[34] == r[34];
      }
    }
  }

  lemma OutputsConsistent(s: Ctx, data: seq<byte>)
    requires Consistent(s) && s.screen == NoScreen
    ensures Consistent(OutputsStep(s, data).0)
  {
    hide IsAccepted, ParseOutput;
    if s.parsingOutput < MAX_OUTPUTS {
      ParsedScript(data, s.tx.outputs[s.parsingOutput]);
    }
  }

  lemma InputsConsistent(dev: Device, s: Ctx, data: seq<byte>, more: bool, env: Env)
    requires Consistent(s) && s.screen == NoScreen
    ensures Consistent(InputsStep(dev, s, data, more, env).0)
  {
    hide Consistent, StoreInput, ReviewStep;
    if s.reqType == CONFIRM_TRANSACTION && s.parsingInput < |s.tx.inputs| {
      var t := StoreInput(s, data).0;
      StoredConsistent(s, data);
      ReviewConsistent(dev, t, env);
    }
  }

  lemma StoredConsistent(s: Ctx, data: seq<byte>)
    requires Consistent(s) && s.parsingInput < |s.tx.inputs|
    ensures var t := StoreInput(s, data).0; Consistent(t) && t.reqType == s.reqType && t.screen == s.screen
  {
    hide IsAccepted, ParseInput;
  }

  lemma ReviewConsistent(dev: Device, s: Ctx, env: Env)
    requires Consistent(s) && s.reqType == CONFIRM_TRANSACTION && s.screen == NoScreen
    ensures Consistent(ReviewStep(dev, s, env).0)
  {
    hide IsAccepted, Covers, ChangeMatches, ShownFor;
  }

  lemma StartConsistent(s: Ctx, data: seq<byte>)
    ensures Consistent(StartStep(s, data).0)
  {
    hide IsAccepted;
    BlankSlots(|s.tx.inputs|);
    HeaderKeepsSlots(data, BlankTx(|s.tx.inputs|), [0, 0, 0, 0, 0], |s.tx.inputs|);
  }

  lemma HeaderKeepsSlots(data: seq<byte>, tx: Tx, path: Path, n: nat)
    ensures ParseHeader(data, tx, path, n).1.outputs == tx.outputs
    ensures ParseHeader(data, tx, path, n).1.inputs == tx.inputs
  {
  }

  lemma SendConsistent(dev: Device, s: Ctx, env: Env)
    requires Consistent(s) && MaySign(s)
    ensures Consistent(SignAndSend(dev, s, env).0)
  {
    hide SigHash;
    SigningConsistent(dev, s, env);
  }

  /** The invariant holds after every enabled step. */
  lemma StepConsistent(dev: Device, s: Ctx, e: Event)
    requires Consistent(s) && Enabled(s, e)
    ensures Consistent(Step(dev, s, e).0)
  {
    hide OutputsStep, InputsStep, StartStep, SignAndSend, Consistent;
    match e
    case Decision(approve, env) =>
      DecisionConsistent(dev, s, approve, env);
    case Apdu(cmd, env) =>
      OutputsConsistent(s, cmd.data);
      InputsConsistent(dev, s, cmd.data, cmd.p2 == P2_MORE, env);
      StartConsistent(s, cmd.data);
      if MaySign(s) {
        SendConsistent(dev, s, env);
      }
      ClearedConsistent(s, CONFIRM_ADDRESS);
      OthersConsistent(s, cmd, env);
  }

  lemma OthersConsistent(s: Ctx, cmd: Command, env: Env)
    requires Consistent(s)
    ensures Consistent(GetPublicKeyStep(s, cmd, env).0) && Consistent(SignMessageStep(s, env).0)
  {
    BlankSlots(|s.tx.inputs|);
  }

  lemma DecisionConsistent(dev: Device, s: Ctx, approve: bool, env: Env)
    requires Consistent(s)
    ensures Consistent(DecisionStep(dev, s, approve, env).0)
  {
    hide SignAndSend;
    if s.screen.TransactionScreen? && approve {
      SendConsistent(dev, s.(screen := NoScreen, state := STATE_APPROVED), env);
    }
  }

  lemma {:induction false} RunConsistent(dev: Device, s: Ctx, es: seq<Event>)
    requires Consistent(s) && IsRun(dev, s, es)
    ensures Consistent(Run(dev, s, es))
  {
    hide Step, Consistent;
    if es == [] {
    } else {
      RunConsistent(dev, s, es[..|es| - 1]);
      StepConsistent(dev, Run(dev, s, es[..|es| - 1]), es[|es| - 1]);
    }
  }
}

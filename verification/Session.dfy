/** G_context and the handlers of SIGN_TX, proved to take the steps of the specification. */
module Session {
  import opened Bytes
  import opened Transaction
  import opened Wire
  import opened Deserialize
  import opened Address
  import opened Validation
  import opened SighashSpec
  import opened SessionSpec
  import Blake2b
  import Sighash

  /** global_ctx_t with the review on screen, the scratch of the hash and the device it runs on. */
  class Context {
    const dev: Device
    const scratch: Blake2b.Scratch
    const tx: TransactionStruct
    const path: array<u32>
    const sighash: array<byte>
    const signature: array<byte>
    var state: State
    var reqType: Request
    var pathLen: u8
    var signingIndex: u8
    var parsingInput: u8
    var parsingOutput: u8
    var screen: Screen

    ghost predicate Shaped() {
      && tx.outputs.Length == MAX_OUTPUTS && 1 <= tx.inputs.Length <= 255
      && path.Length == 5 && sighash.Length == 32 && signature.Length == 64
      && scratch.Valid() && sighash != signature
      && sighash != scratch.buffer && sighash != scratch.block1
      && signature != scratch.buffer && signature != scratch.block1
    }

    function View(): Ctx
      requires Shaped()
      reads this, tx, tx.outputs, tx.inputs, path, sighash, signature
    {
      Ctx(state, reqType, tx.View(), path[..], pathLen, signingIndex, parsingInput, parsingOutput,
          sighash[..], signature[..], screen)
    }

    ghost predicate Valid()
      reads this, tx, tx.outputs, tx.inputs, path, sighash, signature
    {
      Shaped() && Consistent(View())
    }

    /** The zeroed global at power-up. */
    constructor (dev: Device, maxInputs: nat)
      requires 1 <= maxInputs <= 255
      ensures Valid() && View() == Initial(maxInputs)
    {
      this.dev := dev;
      scratch := new Blake2b.Scratch();
      tx := new TransactionStruct(maxInputs);
      path := new u32[5](_ => 0);
      sighash, signature := new byte[32](_ => 0), new byte[64](_ => 0);
      state, reqType, screen := STATE_NONE, CONFIRM_ADDRESS, NoScreen;
      pathLen, signingIndex, parsingInput, parsingOutput := 0, 0, 0, 0;
      new;
      assert path[..] == [0, 0, 0, 0, 0] && sighash[..] == Zeros(32) && signature[..] == Zeros(64);
      InitialConsistent(maxInputs);
    }

    /** explicit_bzero of the context, then the request type and state. */
    method Clear(req: Request)
      requires Valid() && screen == NoScreen
      modifies this, tx, tx.outputs, tx.inputs, path, sighash, signature
      ensures Valid() && View() == Cleared(old(View()), req)
    {
      hide Consistent;
      ClearedConsistent(View(), req);
      tx.Clear();
      ClearBuffers();
      pathLen, signingIndex, parsingInput, parsingOutput := 0, 0, 0, 0;
      reqType := req;
      state := STATE_NONE;
    }

    method ClearBuffers()
      requires Shaped()
      modifies path, sighash, signature
      ensures path[..] == [0, 0, 0, 0, 0] && sighash[..] == Zeros(32) && signature[..] == Zeros(64)
    {
      Fill(path, 0);
      Fill(sighash, 0);
      Fill(signature, 0);
    }

    /** crypto_sign_transaction: sets the path, computes the sighash of the current input and signs it. */
    method CryptoSignTransaction(env: Env) returns (error: int)
      requires Valid() && MaySign(View())
      modifies path, sighash, signature, this`pathLen, scratch.m, scratch.v, scratch.buffer, scratch.block1
      ensures Valid() && (View(), error) == CryptoSign(dev, old(View()), env)
    {
      hide SigHash, Consistent;
      var txin := InputAt(tx.View(), signingIndex, env.beyond);
      path[0] := 0x8000002C;
      path[1] := 0x8001b207;
      path[2] := tx.account;
      path[3] := txin.addressType;
      path[4] := txin.addressIndex;
      pathLen := 5;
      assert path[..] == SigningPath(tx.View(), txin);
      SigningConsistent(dev, old(View()), env);
      if env.deriveError != 0 {
        return env.deriveError;
      }
      error := HashAndSign(txin, env);
    }

    /** The part of crypto_sign_transaction between TRY and FINALLY. */
    method HashAndSign(txin: Input, env: Env) returns (error: int)
      requires Shaped() && Sound(Extended(tx.View(), env.beyond))
      modifies sighash, signature, scratch.m, scratch.v, scratch.buffer, scratch.block1
      ensures error == if env.generateError != 0 then env.generateError else env.signError
      ensures sighash[..] == if env.generateError != 0 then Zeros(32)
                             else SigHash(Extended(tx.View(), env.beyond), txin, KeyAt(dev, path[..]))
      ensures signature[..] == if error != 0 then Zeros(64) else dev.sign(path[..], sighash[..], env.nonce)
    {
      hide SigHash, Sound, Extended, KeyAt;
      CopyWhole(sighash, Zeros(32));
      CopyWhole(signature, Zeros(64));
      if env.generateError != 0 {
        return env.generateError;
      }
      var ok := Sighash.CalcSighash(scratch, Extended(tx.View(), env.beyond), txin, KeyAt(dev, path[..]), sighash, 32);
      if !ok {
        return -1;
      }
      if env.signError != 0 {
        return env.signError;
      }
      CopyWhole(signature, dev.sign(path[..], sighash[..], env.nonce));
      return 0;
    }

    /** The buffer of helper_send_response_sig, filled in at a moving offset. */
    static method FillResponse(hasMore: u8, index: u8, signature: Signature, sighash: Bytes32) returns (resp: seq<byte>)
      ensures resp == ResponseBytes(hasMore, index, signature, sighash)
    {
      hide Overwritten;
      var out := new byte[101](_ => 0);
      ghost var s := out[..];
      var offset := 0;
      PutByte(out, offset, hasMore);
      offset := offset + 1;
      PutByte(out, offset, index);
      OverwrittenTwice(s, 0, [hasMore], [index]);
      offset := offset + 1;
      PutByte(out, offset, 64);
      ghost var x: seq<byte> := [hasMore, index];
      assert [hasMore] + [index] == x;
      OverwrittenTwice(s, 0, x, [64]);
      offset := offset + 1;
      CopyInto(out, offset, signature);
      assert x + [64] == [hasMore, index, 64];
      x := [hasMore, index, 64];
      OverwrittenTwice(s, 0, x, signature);
      offset := offset + 64;
      PutByte(out, offset, 32);
      x := x + signature;
      OverwrittenTwice(s, 0, x, [32]);
      offset := offset + 1;
      CopyInto(out, offset, sighash);
      x := x + [32];
      OverwrittenTwice(s, 0, x, sighash);
      offset := offset + 32;
      OverwrittenFront(s, x + sighash);
      resp := out[..offset];
    }

    /** helper_send_response_sig: the bytes that go out. */
    method HelperSendResponseSig() returns (resp: seq<byte>)
      requires Shaped()
      ensures var r := SigReply(View());
              resp == ResponseBytes(r.hasMore, r.inputIndex, r.signature, r.sighash) && ReadResponse(resp) == r
    {
      var hasMore := (tx.inputLen - signingIndex - 1) % 256;
      resp := FillResponse(hasMore, signingIndex, signature[..], sighash[..]);
      ResponseRoundTrip(hasMore, signingIndex, signature[..], sighash[..]);
    }

    /** The lines sign_input_and_send and validate_transaction share. */
    method SignInputAndSend(env: Env) returns (replies: seq<Reply>)
      requires Valid() && MaySign(View())
      modifies this, path, sighash, signature, scratch.m, scratch.v, scratch.buffer, scratch.block1
      ensures Valid() && (View(), replies) == SignAndSend(dev, old(View()), env)
    {
      hide CryptoSign, Consistent;
      SendConsistent(dev, View(), env);
      var error := CryptoSignTransaction(env);
      if error != 0 {
        state := STATE_NONE;
        replies := [SendSw(error)];
      } else {
        var resp := HelperSendResponseSig();
        replies := [ReadResponse(resp)];
        signingIndex := (signingIndex as int + 1) % 256;
      }
    }

    /** ui_display_transaction up to its screen: the text of an output's address. */
    method AddressShown(script: ScriptBuffer) returns (text: seq<byte>)
      ensures text == ScriptAddress(script)
    {
      hide AddressText;
      var address := new byte[69];
      CopyInto(address, 0, Zeros(69));
      var _ := ScriptPublicKeyToAddress(address, 69, script);
      text := CString(address[..]);
      var Key(k, t) := KeyOfScript(script);
      assert address[..] == AddressText(k, t) + Zeros(69 - AddressLen(t));
      AddressIsText(k, t, 69 - AddressLen(t));
    }

    /** ui_display_transaction. */
    method UiDisplayTransaction(env: Env) returns (replies: seq<Reply>)
      requires Shaped()
      modifies this`state, this`screen
      ensures if reqType != CONFIRM_TRANSACTION || old(state) != STATE_PARSED
              then state == STATE_NONE && screen == old(screen) && replies == [StatusWord(SW_BAD_STATE)]
              else state == STATE_PARSED &&
                   screen == (if env.displayOk then TransactionScreen(ShownFor(Extended(tx.View(), env.beyond)))
                              else old(screen)) &&
                   replies == if env.displayOk then [] else [StatusWord(SW_DISPLAY_AMOUNT_FAIL)]
    {
      hide Extended, InTotal, OutTotal, Wrap, ScriptAddress;
      if reqType != CONFIRM_TRANSACTION || state != STATE_PARSED {
        state := STATE_NONE;
        return [StatusWord(SW_BAD_STATE)];
      }
      if !env.displayOk {
        return [StatusWord(SW_DISPLAY_AMOUNT_FAIL)];
      }
      var view := Extended(tx.View(), env.beyond);
      var fees := CalcFees(view.Ins(), view.Outs());
      var address := AddressShown(tx.outputs[0].script);
      screen := TransactionScreen(Shown(tx.outputs[0].value, address, fees));
      return [];
    }

    /** handler_sign_tx with type 0. */
    method HandleStart(data: seq<byte>) returns (replies: seq<Reply>)
      requires Valid() && screen == NoScreen
      modifies this, tx, tx.outputs, tx.inputs, path, sighash, signature
      ensures Valid() && (View(), replies) == StartStep(old(View()), data)
    {
      hide Consistent, ParseHeader;
      StartConsistent(View(), data);
      Clear(CONFIRM_TRANSACTION);
      ghost var c := View();
      var buf := new Buffer(data);
      assert buf.Rest() == data;
      var status := HeaderDeserialize(buf, tx, path);
      if status != PARSING_OK {
        return [StatusWord(SW_TX_PARSING_FAIL)];
      }
      return [StatusWord(SW_OK)];
    }

    /** handler_sign_tx with P1_OUTPUTS; the dispatcher lets it through with more data announced only. */
    method HandleOutputs(data: seq<byte>) returns (replies: seq<Reply>)
      requires Valid() && screen == NoScreen
      modifies this, tx.outputs
      ensures Valid() && (View(), replies) == OutputsStep(old(View()), data)
    {
      hide Consistent, ParseOutput;
      OutputsConsistent(View(), data);
      if reqType != CONFIRM_TRANSACTION {
        return [StatusWord(SW_BAD_STATE)];
      }
      if parsingOutput >= MAX_OUTPUTS || parsingOutput >= tx.outputLen % 256 {
        return [StatusWord(SW_TX_PARSING_FAIL)];
      }
      var buf := new Buffer(data);
      assert buf.Rest() == data;
      var status := OutputDeserialize(buf, tx.outputs, parsingOutput);
      if status != PARSING_OK {
        return [SendSw(status.Code())];
      }
      parsingOutput := parsingOutput + 1;
      return [StatusWord(SW_OK)];
    }

    /** The part of handler_sign_tx that parses an input into its slot. */
    method StoreChunk(data: seq<byte>) returns (stored: bool)
      requires Shaped() && parsingInput < tx.inputs.Length
      modifies this`parsingInput, tx.inputs
      ensures (View(), stored) == StoreInput(old(View()), data)
    {
      hide ParseInput;
      var buf := new Buffer(data);
      assert buf.Rest() == data;
      var status := InputDeserialize(buf, tx.inputs, parsingInput);
      if status.Code() < 0 {
        return false;
      }
      parsingInput := (parsingInput as int + 1) % 256;
      return true;
    }

    /** handler_sign_tx with P1_INPUTS. */
    method HandleInputs(data: seq<byte>, more: bool, env: Env) returns (replies: seq<Reply>)
      requires Valid() && screen == NoScreen
      modifies this, tx.inputs, path
      ensures Valid() && (View(), replies) == InputsStep(dev, old(View()), data, more, env)
    {
      hide Consistent, StoreInput, ReviewStep;
      InputsConsistent(dev, View(), data, more, env);
      if reqType != CONFIRM_TRANSACTION {
        return [StatusWord(SW_BAD_STATE)];
      }
      if parsingInput >= tx.inputs.Length || parsingInput >= tx.inputLen % 256 {
        return [StatusWord(SW_TX_PARSING_FAIL)];
      }
      StoredConsistent(View(), data);
      var stored := StoreChunk(data);
      if !stored {
        return [StatusWord(SW_TX_PARSING_FAIL)];
      }
      if more {
        return [StatusWord(SW_OK)];
      }
      replies := ValidateAndReview(env);
    }

    /** The end of handler_sign_tx for the last chunk. */
    method ValidateAndReview(env: Env) returns (replies: seq<Reply>)
      requires Shaped() && reqType == CONFIRM_TRANSACTION && screen == NoScreen
      modifies this`state, this`screen, this`pathLen, path
      ensures (View(), replies) == ReviewStep(dev, old(View()), env)
    {
      hide Extended, Validated, PathAfterValidation, ShownFor;
      var view := Extended(tx.View(), env.beyond);
      var ok;
      ok, pathLen := TxValidate(dev, view, path, env.deriveError == 0, pathLen);
      if !ok {
        return [StatusWord(SW_TX_PARSING_FAIL)];
      }
      state := STATE_PARSED;
      replies := UiDisplayTransaction(env);
    }

    /** handler_sign_tx with P1_NEXT_SIGNATURE. */
    method HandleNextSignature(env: Env) returns (replies: seq<Reply>)
      requires Valid() && screen == NoScreen
      modifies this, tx, tx.outputs, tx.inputs, path, sighash, signature,
               scratch.m, scratch.v, scratch.buffer, scratch.block1
      ensures Valid() && (View(), replies) == NextSignatureStep(dev, old(View()), env)
    {
      hide Consistent, SignAndSend;
      if reqType != CONFIRM_TRANSACTION || state != STATE_APPROVED {
        Clear(CONFIRM_ADDRESS);
        return [StatusWord(SW_BAD_STATE)];
      }
      replies := SignInputAndSend(env);
    }

    /** The SIGN_TX case of apdu_dispatcher. */
    method DispatchSignTx(cmd: Command, env: Env) returns (replies: seq<Reply>)
      requires Valid() && screen == NoScreen
      modifies this, tx, tx.outputs, tx.inputs, path, sighash, signature,
               scratch.m, scratch.v, scratch.buffer, scratch.block1
      ensures Valid() && (View(), replies) == SignTxStep(dev, old(View()), cmd, env)
    {
      hide Consistent, StartStep, OutputsStep, InputsStep, NextSignatureStep;
      if (cmd.p1 == P1_START && cmd.p2 != P2_MORE) || (cmd.p1 == P1_OUTPUTS && cmd.p2 != P2_MORE) ||
         (cmd.p1 != P1_START && cmd.p1 != P1_OUTPUTS && cmd.p1 != P1_INPUTS && cmd.p1 != P1_NEXT_SIGNATURE) ||
         (cmd.p2 != P2_LAST && cmd.p2 != P2_MORE) {
        return [StatusWord(SW_WRONG_P1P2)];
      }
      if cmd.data == [] && cmd.p1 != P1_NEXT_SIGNATURE {
        return [StatusWord(SW_WRONG_DATA_LENGTH)];
      }
      if cmd.p1 == P1_START {
        replies := HandleStart(cmd.data);
      } else if cmd.p1 == P1_OUTPUTS {
        replies := HandleOutputs(cmd.data);
      } else if cmd.p1 == P1_INPUTS {
        replies := HandleInputs(cmd.data, cmd.p2 == P2_MORE, env);
      } else {
        replies := HandleNextSignature(env);
      }
    }

    /** validate_transaction, with the return to the menu. */
    method ValidateTransaction(choice: bool, env: Env) returns (replies: seq<Reply>)
      requires Valid() && screen.TransactionScreen?
      modifies this, path, sighash, signature, scratch.m, scratch.v, scratch.buffer, scratch.block1
      ensures Valid() && (View(), replies) == DecisionStep(dev, old(View()), choice, env)
    {
      hide SignAndSend;
      screen := NoScreen;
      if choice {
        state := STATE_APPROVED;
        replies := SignInputAndSend(env);
      } else {
        state := STATE_NONE;
        replies := [StatusWord(SW_DENY)];
      }
    }

    /** validate_message and validate_pubkey. */
    method ValidateOther(choice: bool, env: Env) returns (replies: seq<Reply>)
      requires Valid() && (screen == MessageScreen || screen == AddressScreen)
      modifies this`screen, this`state
      ensures Valid() && (View(), replies) == DecisionStep(dev, old(View()), choice, env)
    {
      var message := screen == MessageScreen;
      screen := NoScreen;
      if message {
        if choice {
          state := STATE_APPROVED;
          if env.signError != 0 {
            state := STATE_NONE;
            return [SendSw(env.signError)];
          }
        } else {
          state := STATE_NONE;
        }
      }
      return [if choice then OtherReply else StatusWord(SW_DENY)];
    }

    /** The effect of GET_PUBLIC_KEY on the context. */
    method GetPublicKey(display: bool, env: Env) returns (replies: seq<Reply>)
      requires Valid() && screen == NoScreen
      modifies this, tx, tx.outputs, tx.inputs, path, sighash, signature
      ensures var c := Cleared(old(View()), CONFIRM_ADDRESS).(path := env.otherPath, pathLen := env.otherPathLen);
              var shown := env.otherOk && display && env.displayOk;
              View() == (if shown then c.(screen := AddressScreen) else c) &&
              replies == if shown then [] else [OtherReply]
      ensures Valid()
    {
      Clear(CONFIRM_ADDRESS);
      CopyPath(env.otherPath);
      pathLen := env.otherPathLen;
      if env.otherOk && display && env.displayOk {
        screen := AddressScreen;
        return [];
      }
      return [OtherReply];
    }

    /** The effect of SIGN_MESSAGE on the context. */
    method SignMessage(env: Env) returns (replies: seq<Reply>)
      requires Valid() && screen == NoScreen
      modifies this, tx, tx.outputs, tx.inputs, path, sighash, signature
      ensures Valid() && (View(), replies) == SignMessageStep(old(View()), env)
    {
      Clear(CONFIRM_MESSAGE);
      if !env.otherOk {
        return [OtherReply];
      }
      CopyPath(env.otherPath);
      pathLen := 5;
      if env.displayOk {
        screen := MessageScreen;
        return [];
      }
      return [OtherReply];
    }

    method CopyPath(p: Path)
      requires Shaped()
      modifies path
      ensures path[..] == p
    {
      forall i | 0 <= i < 5 {
        path[i] := p[i];
      }
    }

    /** apdu_dispatcher. */
    method ApduDispatcher(cmd: Command, env: Env) returns (replies: seq<Reply>)
      requires Valid() && screen == NoScreen
      modifies this, tx, tx.outputs, tx.inputs, path, sighash, signature,
               scratch.m, scratch.v, scratch.buffer, scratch.block1
      ensures Valid() && (View(), replies) == ApduStep(dev, old(View()), cmd, env)
    {
      hide Consistent, SignTxStep, Cleared;
      if cmd.cla != CLA {
        return [StatusWord(SW_CLA_NOT_SUPPORTED)];
      }
      if cmd.ins == GET_VERSION || cmd.ins == GET_APP_NAME {
        return [if cmd.p1 != 0 || cmd.p2 != 0 then StatusWord(SW_WRONG_P1P2) else OtherReply];
      } else if cmd.ins == GET_PUBLIC_KEY {
        if cmd.p1 > 1 || cmd.p2 > 0 {
          return [StatusWord(SW_WRONG_P1P2)];
        }
        if cmd.data == [] {
          return [StatusWord(SW_WRONG_DATA_LENGTH)];
        }
        replies := GetPublicKey(cmd.p1 == 1, env);
      } else if cmd.ins == SIGN_TX {
        replies := DispatchSignTx(cmd, env);
      } else if cmd.ins == SIGN_MESSAGE {
        replies := SignMessage(env);
      } else {
        return [StatusWord(SW_INS_NOT_SUPPORTED)];
      }
    }

    /** One turn of the application: a command, or the user's decision on the review that is on screen. */
    method Handle(e: Event) returns (replies: seq<Reply>)
      requires Valid() && Enabled(View(), e)
      modifies this, tx, tx.outputs, tx.inputs, path, sighash, signature,
               scratch.m, scratch.v, scratch.buffer, scratch.block1
      ensures Valid() && (View(), replies) == Step(dev, old(View()), e)
    {
      hide Consistent, ApduStep, DecisionStep;
      match e
      case Apdu(cmd, env) =>
        replies := ApduDispatcher(cmd, env);
      case Decision(approve, env) =>
        if screen.TransactionScreen? {
          replies := ValidateTransaction(approve, env);
        } else {
          replies := ValidateOther(approve, env);
        }
    }
  }
}

/** The parsers of src/transaction/deserialize.c over a reading buffer. */
module Deserialize {
  import opened Bytes
  import opened Transaction
  import opened Wire

  /** buffer_t of the SDK. A read that fails stores 0 in its destination and does not advance. */
  class Buffer {
    const ptr: seq<byte>
    var offset: nat

    constructor (data: seq<byte>)
      ensures ptr == data && offset == 0
    {
      ptr, offset := data, 0;
    }

    predicate Valid()
      reads this
    {
      offset <= |ptr|
    }

    /** The unread bytes. */
    function Rest(): seq<byte>
      requires Valid()
      reads this
    {
      ptr[offset..]
    }

    predicate CanRead(n: nat)
      requires Valid()
      reads this
    {
      |ptr| - offset >= n
    }

    method SeekCur(n: nat) returns (ok: bool)
      requires Valid()
      modifies this
      ensures Valid() && ok == old(CanRead(n)) && offset == old(offset) + (if ok then n else 0)
    {
      ok := CanRead(n);
      if ok {
        offset := offset + n;
      }
    }

    method ReadU8() returns (ok: bool, v: u8)
      requires Valid()
      modifies this
      ensures Valid() && ok == old(CanRead(1)) && offset == old(offset) + (if ok then 1 else 0)
      ensures v == if ok then old(Rest())[0] else 0
    {
      if !CanRead(1) {
        return false, 0;
      }
      v := ptr[offset];
      offset := offset + 1;
      return true, v;
    }

    method ReadU16Be() returns (ok: bool, v: u16)
      requires Valid()
      modifies this
      ensures Valid() && ok == old(CanRead(2)) && offset == old(offset) + (if ok then 2 else 0)
      ensures v == if ok then U16(old(Rest())[..2]) else 0
    {
      if !CanRead(2) {
        return false, 0;
      }
      v := U16(Rest()[..2]);
      offset := offset + 2;
      return true, v;
    }

    method ReadU32Be() returns (ok: bool, v: u32)
      requires Valid()
      modifies this
      ensures Valid() && ok == old(CanRead(4)) && offset == old(offset) + (if ok then 4 else 0)
      ensures v == if ok then U32(old(Rest())[..4]) else 0
    {
      if !CanRead(4) {
        return false, 0;
      }
      v := U32(Rest()[..4]);
      offset := offset + 4;
      return true, v;
    }

    method ReadU64Be() returns (ok: bool, v: u64)
      requires Valid()
      modifies this
      ensures Valid() && ok == old(CanRead(8)) && offset == old(offset) + (if ok then 8 else 0)
      ensures v == if ok then U64(old(Rest())[..8]) else 0
    {
      if !CanRead(8) {
        return false, 0;
      }
      v := U64(Rest()[..8]);
      offset := offset + 8;
      return true, v;
    }
  }

  /** memcpy of script bytes over the start of outs[k]'s buffer. */
  method StoreScript(outs: array<Output>, k: nat, script: seq<byte>)
    requires k < outs.Length && |script| <= SCRIPT_BUFFER
    modifies outs
    ensures outs[..] == old(outs[..])[k := old(outs[k]).(script := script + old(outs[k]).script[|script|..])]
  {
    outs[k] := outs[k].(script := script + outs[k].script[|script|..]);
  }

  /** transaction_output_deserialize into outs[k]. */
  method OutputDeserialize(buf: Buffer, outs: array<Output>, k: nat) returns (status: Status)
    requires buf.Valid() && k < outs.Length
    modifies buf, outs
    ensures buf.Valid() && status == ParseOutput(old(buf.Rest()), old(outs[k])).0
    ensures outs[..] == old(outs[..])[k := ParseOutput(old(buf.Rest()), old(outs[k])).1]
    ensures status == PARSING_OK ==> buf.Rest() == []
  {
    hide FormLength, U64;
    ghost var rest := buf.Rest();
    var ok, v := buf.ReadU64Be();
    outs[k] := outs[k].(value := v);
    if !ok {
      return OUTPUT_VALUE_ERROR;
    }
    assert buf.Rest() == rest[8..];
    status := ScriptDeserialize(buf, outs, k);
  }

  /** The script part of transaction_output_deserialize. */
  method ScriptDeserialize(buf: Buffer, outs: array<Output>, k: nat) returns (status: Status)
    requires buf.Valid() && k < outs.Length
    modifies buf, outs
    ensures var r, n := old(buf.Rest()), FormLength(old(buf.Rest()));
            status == (if n == 0 then OUTPUT_SCRIPT_ERROR else if |r| == n then PARSING_OK else OUTPUT_ERROR) &&
            outs[..] == (if n == 0 then old(outs[..])
                         else old(outs[..])[k := old(outs[k]).(script := r[..n] + old(outs[k]).script[n..])])
    ensures buf.Valid() && (status == PARSING_OK ==> buf.Rest() == [])
  {
    ghost var r := buf.Rest();
    if !buf.CanRead(1) {
      return OUTPUT_SCRIPT_ERROR;
    }
    var scriptLen := buf.ptr[buf.offset];
    if scriptLen == OP_BLAKE2B {
      if !buf.CanRead(2) {
        return OUTPUT_SCRIPT_ERROR;
      }
      scriptLen := buf.ptr[buf.offset + 1];
      if scriptLen != 0x20 {
        return OUTPUT_SCRIPT_ERROR;
      }
      if !buf.CanRead(scriptLen + 3) {
        return OUTPUT_SCRIPT_ERROR;
      }
      if buf.ptr[buf.offset + scriptLen + 2] != OP_EQUAL {
        return OUTPUT_SCRIPT_ERROR;
      }
      assert buf.ptr[buf.offset..buf.offset + 35] == r[..35];
      StoreScript(outs, k, buf.ptr[buf.offset..buf.offset + scriptLen + 3]);
      var ok := buf.SeekCur(scriptLen + 3);
      if !ok {
        return OUTPUT_SCRIPT_ERROR;
      }
    } else if scriptLen == 0x20 || scriptLen == 0x21 {
      if !buf.CanRead(scriptLen + 2) {
        return OUTPUT_SCRIPT_ERROR;
      }
      var op := buf.ptr[buf.offset + scriptLen + 1];
      if (scriptLen == 0x20 && op != OP_CHECKSIG) || (scriptLen == 0x21 && op != OP_CHECKSIG_ECDSA) {
        return OUTPUT_SCRIPT_ERROR;
      }
      assert buf.ptr[buf.offset..buf.offset + scriptLen + 2] == r[..scriptLen + 2];
      StoreScript(outs, k, buf.ptr[buf.offset..buf.offset + scriptLen + 2]);
      var ok := buf.SeekCur(scriptLen + 2);
      if !ok {
        return OUTPUT_SCRIPT_ERROR;
      }
    } else {
      return OUTPUT_SCRIPT_ERROR;
    }
    return if |buf.ptr| - buf.offset == 0 then PARSING_OK else OUTPUT_ERROR;
  }

  /** transaction_input_deserialize into ins[k]. */
  method InputDeserialize(buf: Buffer, ins: array<Input>, k: nat) returns (status: Status)
    requires buf.Valid() && k < ins.Length
    modifies buf, ins
    ensures buf.Valid() && status == ParseInput(old(buf.Rest()), old(ins[k])).0
    ensures ins[..] == old(ins[..])[k := ParseInput(old(buf.Rest()), old(ins[k])).1]
    ensures status == PARSING_OK ==> buf.Rest() == []
  {
    hide U32, U64;
    ghost var rest := buf.Rest();
    var ok, value := buf.ReadU64Be();
    ins[k] := ins[k].(value := value);
    if !ok {
      return INPUT_VALUE_ERROR;
    }
    if !buf.CanRead(32) {
      return INPUT_TX_ID_ERROR;
    }
    assert buf.ptr[buf.offset..buf.offset + 32] == rest[8..40];
    ins[k] := ins[k].(txId := buf.ptr[buf.offset..buf.offset + 32]);
    ok := buf.SeekCur(32);
    if !ok {
      return INPUT_TX_ID_ERROR;
    }
    assert buf.Rest() == rest[40..];
    var b;
    ok, b := buf.ReadU8();
    ins[k] := ins[k].(addressType := b);
    if !ok {
      return INPUT_ADDRESS_TYPE_ERROR;
    }
    assert buf.Rest() == rest[41..];
    var w;
    ok, w := buf.ReadU32Be();
    ins[k] := ins[k].(addressIndex := w);
    if !ok {
      return INPUT_ADDRESS_INDEX_ERROR;
    }
    assert rest[41..][..4] == rest[41..45];
    assert buf.Rest() == rest[45..];
    ok, b := buf.ReadU8();
    ins[k] := ins[k].(index := b);
    if !ok {
      return INPUT_INDEX_ERROR;
    }
    return if |buf.ptr| - buf.offset == 0 then PARSING_OK else INPUT_ERROR;
  }

  /** transaction_deserialize: the header, with the change address going into the path. */
  method HeaderDeserialize(buf: Buffer, tx: TransactionStruct, path: array<u32>) returns (status: Status)
    requires buf.Valid() && path.Length == 5
    modifies buf, tx, path
    ensures buf.Valid() && tx.outputs[..] == old(tx.outputs[..]) && tx.inputs[..] == old(tx.inputs[..])
    ensures var (st, t, p) := ParseHeader(old(buf.Rest()), old(tx.View()), old(path[..]), tx.inputs.Length);
            status == st && tx.View() == t && path[..] == p
    ensures status == PARSING_OK ==> buf.Rest() == []
  {
    hide U16, ParseChange;
    ghost var rest := buf.Rest();
    var ok, version := buf.ReadU16Be();
    tx.version := version;
    if !ok {
      return VERSION_ERROR;
    }
    assert buf.Rest() == rest[2..];
    var nOutput, nInput;
    ok, nOutput := buf.ReadU8();
    if !ok {
      return OUTPUTS_LENGTH_ERROR;
    }
    tx.outputLen := nOutput;
    if tx.outputLen < 1 || tx.outputLen > 2 {
      return OUTPUTS_LENGTH_ERROR;
    }
    assert buf.Rest() == rest[3..];
    ok, nInput := buf.ReadU8();
    if !ok {
      return INPUTS_LENGTH_ERROR;
    }
    tx.inputLen := nInput;
    if tx.inputLen < 1 || tx.inputLen > tx.inputs.Length {
      return INPUTS_LENGTH_ERROR;
    }
    assert buf.Rest() == rest[4..];
    status := ChangeDeserialize(buf, tx, path);
  }

  /** The second half of transaction_deserialize. */
  method ChangeDeserialize(buf: Buffer, tx: TransactionStruct, path: array<u32>) returns (status: Status)
    requires buf.Valid() && path.Length == 5
    modifies buf, tx, path
    ensures buf.Valid() && tx.outputs[..] == old(tx.outputs[..]) && tx.inputs[..] == old(tx.inputs[..])
    ensures var (st, t, p) := ParseChange(old(buf.Rest()), old(tx.View()), old(path[..]));
            status == st && tx.View() == t && path[..] == p
    ensures status == PARSING_OK ==> buf.Rest() == []
  {
    hide U32;
    ghost var r := buf.Rest();
    var ok, changeType := buf.ReadU8();
    if !ok {
      return HEADER_ERROR;
    }
    if changeType != 0 && changeType != 1 {
      return HEADER_ERROR;
    }
    assert buf.Rest() == r[1..];
    var changeIndex, account;
    ok, changeIndex := buf.ReadU32Be();
    if !ok {
      return HEADER_ERROR;
    }
    assert r[1..][..4] == r[1..5] && buf.Rest() == r[5..];
    ok, account := buf.ReadU32Be();
    tx.account := account;
    if !ok {
      return HEADER_ERROR;
    }
    assert r[5..][..4] == r[5..9];
    if tx.account < 0x80000000 {
      return HEADER_ERROR;
    }
    path[0] := 0x8000002C;
    path[1] := 0x8001b207;
    path[2] := tx.account;
    path[3] := changeType;
    path[4] := changeIndex;
    assert path[..] == [PURPOSE, COIN_TYPE, tx.account, r[0], U32(r[1..5])];
    return if |buf.ptr| - buf.offset == 0 then PARSING_OK else HEADER_ERROR;
  }
}

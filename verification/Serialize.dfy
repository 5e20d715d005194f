/** The serializers of src/transaction/serialize.c. */
module Serialize {
  import opened Bytes
  import opened Transaction
  import opened Wire
  import opened SighashSpec

  method WriteBe(out: array<byte>, offset: nat, v: nat, width: nat)
    requires offset + width <= out.Length
    modifies out
    ensures out[..] == Overwritten(old(out[..]), offset, BE(v, width))
  {
    CopyInto(out, offset, BE(v, width));
  }

  /** What a serializer returns; Overrun where the C code writes or reads outside its buffers, which has no result. */
  datatype Written = Refused | Done(size: nat) | Overrun

  /** transaction_serialize into out. The C check asks for 9 bytes only, so 9 to 12 bytes are overrun. */
  method HeaderSerialize(tx: Tx, path: Path, out: array<byte>, outLen: nat) returns (r: Written)
    requires outLen <= out.Length
    modifies out
    ensures r == if outLen < 9 then Refused else if out.Length < 13 then Overrun else Done(13)
    ensures r.Done? ==> out[..] == EncodeHeader(Header(tx.version, tx.outputLen % 256, tx.inputLen % 256,
                                                       path[3] % 256, path[4], path[2])) + old(out[13..])
    ensures r.Refused? ==> out[..] == old(out[..])
  {
    hide BE, Overwritten;
    if outLen < 9 {
      return Refused;
    }
    if out.Length < 13 {
      return Overrun;
    }
    ghost var s := out[..];
    WriteBe(out, 0, tx.version, 2);
    ghost var x := BE(tx.version, 2);
    PutByte(out, 2, tx.outputLen % 256);
    OverwrittenTwice(s, 0, x, [tx.outputLen % 256]);
    x := x + [tx.outputLen % 256];
    PutByte(out, 3, tx.inputLen % 256);
    OverwrittenTwice(s, 0, x, [tx.inputLen % 256]);
    x := x + [tx.inputLen % 256];
    PutByte(out, 4, path[3] % 256);
    OverwrittenTwice(s, 0, x, [path[3] % 256]);
    x := x + [path[3] % 256];
    WriteBe(out, 5, path[4], 4);
    OverwrittenTwice(s, 0, x, BE(path[4], 4));
    x := x + BE(path[4], 4);
    WriteBe(out, 9, path[2], 4);
    OverwrittenTwice(s, 0, x, BE(path[2], 4));
    OverwrittenFront(s, x + BE(path[2], 4));
    return Done(13);
  }

  /** transaction_input_serialize. */
  method InputSerialize(i: Input, out: array<byte>, outLen: nat) returns (r: Written)
    requires outLen <= out.Length
    modifies out
    ensures r == if outLen < 46 then Refused else Done(46)
    ensures out[..] == if r.Done? then EncodeInput(i) + old(out[46..]) else old(out[..])
  {
    hide BE, Overwritten;
    if outLen < 46 {
      return Refused;
    }
    ghost var s := out[..];
    WriteBe(out, 0, i.value, 8);
    ghost var x := BE(i.value, 8);
    CopyInto(out, 8, i.txId);
    OverwrittenTwice(s, 0, x, i.txId);
    x := x + i.txId;
    PutByte(out, 40, i.addressType);
    OverwrittenTwice(s, 0, x, [i.addressType]);
    x := x + [i.addressType];
    WriteBe(out, 41, i.addressIndex, 4);
    OverwrittenTwice(s, 0, x, BE(i.addressIndex, 4));
    x := x + BE(i.addressIndex, 4);
    PutByte(out, 45, i.index);
    OverwrittenTwice(s, 0, x, [i.index]);
    OverwrittenFront(s, x + [i.index]);
    return Done(46);
  }

  /** How many script bytes transaction_output_serialize copies. */
  function CopiedLen(s: ScriptBuffer): nat {
    if s[0] == OP_BLAKE2B then s[1] as int + 3 else s[0] as int + 2
  }

  /** The script and the room that transaction_output_serialize needs to stay inside its buffers. */
  predicate Fits(s: ScriptBuffer, room: nat) {
    CopiedLen(s) <= SCRIPT_BUFFER && 8 + CopiedLen(s) <= room
  }

  /** transaction_output_serialize into out. The C check asks for 41 bytes and copies by the script's first bytes. */
  method OutputSerialize(o: Output, out: array<byte>, outLen: nat) returns (r: Written)
    requires outLen <= out.Length
    modifies out
    ensures r == if outLen < 41 then Refused
                 else if !Fits(o.script, out.Length) then Overrun
                 else Done(8 + CopiedLen(o.script))
    ensures r.Done? ==> out[..] == BE(o.value, 8) + o.script[..CopiedLen(o.script)] + old(out[8 + CopiedLen(o.script)..])
    ensures r.Refused? ==> out[..] == old(out[..])
  {
    if outLen < 41 {
      return Refused;
    }
    if !Fits(o.script, out.Length) {
      return Overrun;
    }
    hide BE, Overwritten;
    ghost var s, value, script := out[..], BE(o.value, 8), o.script[..CopiedLen(o.script)];
    var size := 0;
    WriteBe(out, 0, o.value, 8);
    if o.script[0] == OP_BLAKE2B {
      var len := o.script[1];
      CopyInto(out, 8, o.script[..len + 3]);
      size := 8 + len + 3;
    } else {
      var len := o.script[0];
      CopyInto(out, 8, o.script[..len + 2]);
      size := 8 + len + 2;
    }
    assert out[..] == Overwritten(Overwritten(s, 0, value), 8, script);
    OverwrittenTwice(s, 0, value, script);
    OverwrittenFront(s, value + script);
    return Done(size);
  }

  /** An accepted output overruns a buffer exactly when the check lets through less than its encoding. */
  lemma OverrunIff(s: ScriptBuffer, room: nat)
    requires IsAccepted(s)
    ensures Fits(s, room) <==> room >= if IsSchnorr(s) then 42 else 43
  {
    ScriptLengthsAgree(s);
  }

  /** Parser, serializer and outputs hash take the same script length. */
  lemma ScriptLengthsAgree(s: ScriptBuffer)
    requires IsAccepted(s)
    ensures CopiedLen(s) == ScriptSize(s) == FormLength(s) == HashedScriptLen(s) <= SCRIPT_BUFFER
  {
  }

  /** So an accepted output serializes to its encoding, in 42 or 43 bytes. */
  lemma SerializedIsEncoded(o: Output)
    requires IsAccepted(o.script)
    ensures BE(o.value, 8) + o.script[..CopiedLen(o.script)] == EncodeOutput(o)
    ensures |EncodeOutput(o)| == if IsSchnorr(o.script) then 42 else 43
  {
    ScriptLengthsAgree(o.script);
  }
}

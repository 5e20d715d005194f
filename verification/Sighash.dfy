/** calc_sighash of src/sighash.c: reused scratch buffers, and inner hashes interleaved with the outer one. */
module Sighash {
  import opened Bytes
  import opened Transaction
  import opened SighashSpec
  import Rfc7693
  import Blake2b

  /** The state computes nn digest bytes and has absorbed the key block and then exactly these bytes. */
  ghost predicate Keyed(s: Blake2b.State, g: Blake2b.Scratch, key: seq<byte>, nn: nat, data: seq<byte>)
    requires |key| <= 64 && nn <= 64
    reads s, s.h, s.t, s.f, s.buf
  {
    s.Valid() && s.Streaming() && s.Apart(g) && s.outlen == nn && s.h0 == Rfc7693.InitialChaining(nn, |key|) &&
    s.fed == Rfc7693.KeyBlock(key) + data
  }

  /** The state hash_init leaves for the sighash, after exactly these bytes. */
  ghost predicate Absorbed(s: Blake2b.State, g: Blake2b.Scratch, data: seq<byte>)
    reads s, s.h, s.t, s.f, s.buf
  {
    Keyed(s, g, SIGNING_KEY, 32, data)
  }

  /** hash_init: size counts bits. */
  method HashInit(g: Blake2b.Scratch, s: Blake2b.State, size: nat, key: seq<byte>) returns (ok: bool)
    requires s.Valid() && s.Apart(g)
    modifies s, s.h, s.t, s.f, s.buf, g.m, g.v, g.block1
    ensures ok == (size % 8 == 0 && 8 <= size <= 512 && 1 <= |key| <= 64)
    ensures ok ==> Keyed(s, g, key, size / 8, [])
  {
    hide Blake2b.State.Streaming, Rfc7693.InitialChaining, Rfc7693.KeyBlock;
    if size % 8 != 0 || size < 8 || size > 512 {
      return false;
    }
    var r := s.InitKey(g, size / 8, key);
    if r < 0 {
      return false;
    }
    assert Rfc7693.KeyBlock(key) + [] == Rfc7693.KeyBlock(key);
    return true;
  }

  /** The call every part of calc_sighash starts with; it cannot fail. */
  method SighashInit(g: Blake2b.Scratch, s: Blake2b.State) returns (ok: bool)
    requires s.Valid() && s.Apart(g)
    modifies s, s.h, s.t, s.f, s.buf, g.m, g.v, g.block1
    ensures ok && Absorbed(s, g, [])
  {
    ok := HashInit(g, s, 256, SIGNING_KEY);
  }

  /** hash_update; part is what this caller has fed on top of before. */
  method HashUpdate(g: Blake2b.Scratch, s: Blake2b.State, data: seq<byte>, ghost before: seq<byte>,
                    ghost part: seq<byte> := [])
    requires Absorbed(s, g, before + part)
    modifies s`buflen, s`fed, s`blocks, s.h, s.t, s.buf, g.m, g.v
    ensures Absorbed(s, g, before + (part + data))
    ensures part == [] ==> part + data == data
  {
    hide Blake2b.State.Streaming, Rfc7693.InitialChaining, Rfc7693.KeyBlock;
    s.Update(g, data);
    assert Rfc7693.KeyBlock(SIGNING_KEY) + (before + part) + data
        == Rfc7693.KeyBlock(SIGNING_KEY) + (before + (part + data));
  }

  method HashFinalize(g: Blake2b.Scratch, s: Blake2b.State, out: array<byte>, outLen: nat, ghost data: seq<byte>)
    returns (ok: bool)
    requires Absorbed(s, g, data) && outLen <= out.Length && out != s.buf && out != g.buffer
    modifies s.h, s.t, s.f, s.buf, g.m, g.v, g.buffer, out
    ensures ok == (outLen >= 32)
    ensures out[..] == if ok then H(data) + old(out[32..]) else old(out[..])
  {
    hide Blake2b.State.Streaming, Rfc7693.InitialChaining, Rfc7693.KeyBlock, Rfc7693.Digest;
    if outLen < 32 {
      return false;
    }
    var r := s.Final(g, out, 32);
    return r == 0;
  }

  method WriteLe(out: array<byte>, offset: nat, v: nat, width: nat)
    requires offset + width <= out.Length
    modifies out
    ensures out[..] == old(out[..offset]) + LE(v, width) + old(out[offset + width..])
  {
    CopyInto(out, offset, LE(v, width));
  }

  method Clear(out: array<byte>)
    modifies out
    ensures out[..] == Zeros(out.Length)
  {
    CopyInto(out, 0, Zeros(out.Length));
  }

  method CalcPrevOutputsHash(g: Blake2b.Scratch, tx: Tx, out: array<byte>, outLen: nat) returns (ok: bool)
    requires g.Valid() && out != g.buffer && out != g.block1 && tx.InBounds() && outLen <= out.Length
    modifies out, g.m, g.v, g.buffer, g.block1
    ensures ok == (outLen >= 32)
    ensures out[..] == if ok then H(PrevOutputsBytes(tx.Ins())) + old(out[32..]) else old(out[..])
  {
    hide Absorbed, H, OutpointBytes;
    var s := new Blake2b.State();
    var inner := new byte[32];
    Clear(inner);
    var started := SighashInit(g, s);
    if !started {
      return false;
    }
    var i := 0;
    ghost var ins := tx.Ins();
    while i < tx.inputLen
      invariant 0 <= i <= tx.inputLen && out[..] == old(out[..])
      invariant Absorbed(s, g, PrevOutputsBytes(ins[..i]))
    {
      FeedOutpoint(g, s, inner, tx.inputs[i], PrevOutputsBytes(ins[..i]));
      assert ins[..i + 1][..i] == ins[..i];
      i := i + 1;
    }
    assert ins[..i] == ins;
    ok := HashFinalize(g, s, out, outLen, PrevOutputsBytes(ins));
  }

  /** One turn of the loop: the transaction id straight from the input, the index through the scratch. */
  method FeedOutpoint(g: Blake2b.Scratch, s: Blake2b.State, inner: array<byte>, txin: Input, ghost before: seq<byte>)
    requires Absorbed(s, g, before) && inner.Length == 32 && inner != s.buf
    modifies s`buflen, s`fed, s`blocks, s.h, s.t, s.buf, g.m, g.v, inner
    ensures Absorbed(s, g, before + OutpointBytes(txin))
  {
    hide Absorbed, LE;
    Clear(inner);
    WriteLe(inner, 0, txin.index, 4);
    assert inner[..4] == LE(txin.index, 4);
    assert before + [] == before;
    HashUpdate(g, s, txin.txId, before);
    HashUpdate(g, s, inner[..4], before, txin.txId);
  }

  method CalcSequencesHash(g: Blake2b.Scratch, tx: Tx, out: array<byte>, outLen: nat) returns (ok: bool)
    requires g.Valid() && out != g.buffer && out != g.block1 && tx.InBounds() && outLen <= out.Length
    modifies out, g.m, g.v, g.buffer, g.block1
    ensures ok == (outLen >= 32)
    ensures out[..] == if ok then H(SequencesBytes(tx.Ins())) + old(out[32..]) else old(out[..])
  {
    hide Absorbed, H, LE;
    var s := new Blake2b.State();
    var inner := new byte[32];
    Clear(inner);
    var started := SighashInit(g, s);
    if !started {
      return false;
    }
    var i := 0;
    ghost var ins := tx.Ins();
    while i < tx.inputLen
      invariant 0 <= i <= tx.inputLen && out[..] == old(out[..])
      invariant Absorbed(s, g, SequencesBytes(ins[..i]))
    {
      assert SequencesBytes(ins[..i]) + [] == SequencesBytes(ins[..i]);
      FeedLe(g, s, inner, tx.inputs[i].sequence, 8, SequencesBytes(ins[..i]));
      assert ins[..i + 1][..i] == ins[..i];
      Clear(inner);
      i := i + 1;
    }
    assert ins[..i] == ins;
    ok := HashFinalize(g, s, out, outLen, SequencesBytes(ins));
  }

  method CalcSigOpCountHash(g: Blake2b.Scratch, tx: Tx, out: array<byte>, outLen: nat) returns (ok: bool)
    requires g.Valid() && out != g.buffer && out != g.block1 && tx.InBounds() && outLen <= out.Length
    modifies out, g.m, g.v, g.buffer, g.block1
    ensures ok == (outLen >= 32)
    ensures out[..] == if ok then H(SigOpBytes(tx.Ins())) + old(out[32..]) else old(out[..])
  {
    hide Absorbed, H;
    var s := new Blake2b.State();
    var inner := new byte[32];
    Clear(inner);
    var started := SighashInit(g, s);
    if !started {
      return false;
    }
    var i := 0;
    ghost var ins := tx.Ins();
    while i < tx.inputLen
      invariant 0 <= i <= tx.inputLen && out[..] == old(out[..])
      invariant Absorbed(s, g, SigOpBytes(ins[..i]))
    {
      inner[0] := 1;
      assert inner[..1] == [1];
      assert SigOpBytes(ins[..i]) + [] == SigOpBytes(ins[..i]);
      HashUpdate(g, s, inner[..1], SigOpBytes(ins[..i]));
      assert ins[..i + 1][..i] == ins[..i];
      Clear(inner);
      i := i + 1;
    }
    assert ins[..i] == ins;
    ok := HashFinalize(g, s, out, outLen, SigOpBytes(ins));
  }

  /** Clears the scratch, writes v little-endian at its start and hashes exactly those bytes. */
  method FeedLe(g: Blake2b.Scratch, s: Blake2b.State, scratch: array<byte>, v: nat, width: nat,
                ghost before: seq<byte>, ghost part: seq<byte> := [])
    requires Absorbed(s, g, before + part) && width <= scratch.Length && scratch != s.buf
    modifies s`buflen, s`fed, s`blocks, s.h, s.t, s.buf, g.m, g.v, scratch
    ensures Absorbed(s, g, before + (part + LE(v, width)))
    ensures part == [] ==> part + LE(v, width) == LE(v, width)
  {
    hide Absorbed;
    Clear(scratch);
    WriteLe(scratch, 0, v, width);
    assert scratch[..width] == LE(v, width);
    HashUpdate(g, s, scratch[..width], before, part);
  }

  method CalcOutputsHash(g: Blake2b.Scratch, tx: Tx, out: array<byte>, outLen: nat) returns (ok: bool)
    requires g.Valid() && out != g.buffer && out != g.block1 && Sound(tx) && outLen <= out.Length
    modifies out, g.m, g.v, g.buffer, g.block1
    ensures ok == (outLen >= 32)
    ensures out[..] == if ok then H(OutputsBytes(tx.Outs())) + old(out[32..]) else old(out[..])
  {
    hide Absorbed, H, OutputBytes, Hashable;
    var s := new Blake2b.State();
    var inner := new byte[32];
    Clear(inner);
    var started := SighashInit(g, s);
    if !started {
      return false;
    }
    var i := 0;
    ghost var outs := tx.Outs();
    while i < tx.outputLen
      invariant 0 <= i <= tx.outputLen && out[..] == old(out[..])
      invariant Absorbed(s, g, OutputsBytes(outs[..i]))
    {
      FeedOutput(g, s, inner, tx.outputs[i], OutputsBytes(outs[..i]));
      assert outs[..i + 1][..i] == outs[..i];
      i := i + 1;
    }
    assert outs[..i] == outs;
    ok := HashFinalize(g, s, out, outLen, OutputsBytes(outs));
  }

  /** One turn of the loop over the outputs. */
  method FeedOutput(g: Blake2b.Scratch, s: Blake2b.State, inner: array<byte>, o: Output, ghost before: seq<byte>)
    requires Absorbed(s, g, before) && inner.Length == 32 && inner != s.buf && Hashable(o)
    modifies s`buflen, s`fed, s`blocks, s.h, s.t, s.buf, g.m, g.v, inner
    ensures Absorbed(s, g, before + OutputBytes(o))
  {
    hide Absorbed, LE, Zeros;
    assert before + [] == before;
    FeedLe(g, s, inner, o.value, 8, before);
    ghost var part := LE(o.value, 8);
    Clear(inner);
    ZeroBytes();
    assert inner[..2] == Zeros(2);
    HashUpdate(g, s, inner[..2], before, part);
    part := part + [0, 0];
    var scriptLen: byte;
    if o.script[0] == OP_BLAKE2B {
      scriptLen := 35;
      WriteLe(inner, 0, 35, 8);
    } else {
      scriptLen := (o.script[0] as int + 2) % 256;
      WriteLe(inner, 0, scriptLen, 8);
    }
    assert inner[..8] == LE(scriptLen, 8);
    HashUpdate(g, s, inner[..8], before, part);
    part := part + LE(scriptLen, 8);
    assert o.script[..scriptLen] == HashedScript(o.script);
    HashUpdate(g, s, o.script[..scriptLen], before, part);
  }

  lemma ZeroBytes()
    ensures Zeros(2) == [0, 0]
  {
  }

  /** calc_txin_script_public_key: a Schnorr script for the signing key. */
  method CalcTxinScriptPublicKey(key: Bytes32, out: array<byte>, outLen: nat) returns (ok: bool)
    requires outLen <= out.Length
    modifies out
    ensures ok == (outLen >= 34)
    ensures out[..] == if ok then [0x20] + key + [OP_CHECKSIG] + old(out[34..]) else old(out[..])
  {
    hide Overwritten;
    if outLen < 34 {
      return false;
    }
    ghost var s := out[..];
    PutByte(out, 0, 0x20);
    CopyInto(out, 1, key);
    OverwrittenTwice(s, 0, [0x20], key);
    PutByte(out, 33, OP_CHECKSIG);
    OverwrittenTwice(s, 0, [0x20] + key, [OP_CHECKSIG]);
    OverwrittenFront(s, [0x20] + key + [OP_CHECKSIG]);
    return true;
  }

  /** calc_sighash: the digest of the preimage lands in the first 32 bytes of out. */
  method CalcSighash(g: Blake2b.Scratch, tx: Tx, txin: Input, key: Bytes32, out: array<byte>, outLen: nat)
    returns (ok: bool)
    requires g.Valid() && out != g.buffer && out != g.block1 && Sound(tx) && outLen <= out.Length
    modifies out, g.m, g.v, g.buffer, g.block1
    ensures ok == (outLen >= 32)
    ensures out[..] == if ok then SigHash(tx, txin, key) + old(out[32..]) else old(out[..])
  {
    hide Absorbed, H, Preimage, TransactionPart, TailPart, InputBytes, Overwritten;
    if outLen < 32 {
      return false;
    }
    var outer := new byte[36];
    var s := new Blake2b.State();
    Clear(outer);
    var started := SighashInit(g, s);
    if !started {
      return false;
    }
    FeedTransaction(g, s, outer, tx);
    FeedInput(g, s, outer, txin, key, TransactionPart(tx));
    FeedTail(g, s, outer, tx, TransactionPart(tx) + InputBytes(txin, key));
    PreimageParts(tx, txin, key);
    ok := HashFinalize(g, s, out, outLen, Preimage(tx, txin, key));
  }

  ghost function TransactionPart(tx: Tx): seq<byte>
    requires tx.InBounds()
  {
    LE(tx.version, 2) + H(PrevOutputsBytes(tx.Ins())) + H(SequencesBytes(tx.Ins())) + H(SigOpBytes(tx.Ins()))
  }

  ghost function TailPart(tx: Tx): seq<byte>
    requires tx.InBounds()
  {
    H(OutputsBytes(tx.Outs())) + Zeros(8) + Zeros(20) + Zeros(8) + Zeros(32) + [1]
  }

  lemma PreimageParts(tx: Tx, txin: Input, key: Bytes32)
    requires tx.InBounds()
    ensures Preimage(tx, txin, key) == TransactionPart(tx) + InputBytes(txin, key) + TailPart(tx)
  {
    hide H, LE, Zeros, InputBytes;
  }

  /** The version and the three inner digests of the inputs. */
  method FeedTransaction(g: Blake2b.Scratch, s: Blake2b.State, outer: array<byte>, tx: Tx)
    requires Absorbed(s, g, []) && s.Apart(g) && Sound(tx)
    requires outer.Length == 36 && outer != s.buf && outer != g.buffer && outer != g.block1
    modifies s`buflen, s`fed, s`blocks, s.h, s.t, s.buf, g.m, g.v, g.buffer, g.block1, outer
    ensures Absorbed(s, g, TransactionPart(tx)) && outer[..] == Zeros(36)
  {
    hide Absorbed, H, LE;
    ghost var none: seq<byte> := [];
    assert none + none == none;
    FeedLe(g, s, outer, tx.version, 2, none);
    ghost var p := LE(tx.version, 2);
    Clear(outer);
    var ok := CalcPrevOutputsHash(g, tx, outer, 36);
    FeedDigest(g, s, outer, H(PrevOutputsBytes(tx.Ins())), p);
    p := p + H(PrevOutputsBytes(tx.Ins()));
    ok := CalcSequencesHash(g, tx, outer, 36);
    FeedDigest(g, s, outer, H(SequencesBytes(tx.Ins())), p);
    p := p + H(SequencesBytes(tx.Ins()));
    ok := CalcSigOpCountHash(g, tx, outer, 36);
    FeedDigest(g, s, outer, H(SigOpBytes(tx.Ins())), p);
  }

  /** Hashes a digest lying at the start of the scratch and clears the scratch. */
  method FeedDigest(g: Blake2b.Scratch, s: Blake2b.State, outer: array<byte>, ghost d: seq<byte>, ghost before: seq<byte>)
    requires Absorbed(s, g, [] + before) && outer.Length == 36 && outer != s.buf && |d| == 32 && outer[..32] == d
    modifies s`buflen, s`fed, s`blocks, s.h, s.t, s.buf, g.m, g.v, outer
    ensures Absorbed(s, g, [] + (before + d)) && [] + (before + d) == before + d && outer[..] == Zeros(36)
  {
    hide Absorbed;
    HashUpdate(g, s, outer[..32], [], before);
    Clear(outer);
  }

  /** The fields of the input being signed. */
  method FeedInput(g: Blake2b.Scratch, s: Blake2b.State, outer: array<byte>, txin: Input, key: Bytes32,
                   ghost before: seq<byte>)
    requires Absorbed(s, g, before) && outer.Length == 36 && outer != s.buf && outer[..] == Zeros(36)
    modifies s`buflen, s`fed, s`blocks, s.h, s.t, s.buf, g.m, g.v, outer
    ensures Absorbed(s, g, before + InputBytes(txin, key)) && outer[..] == Zeros(36)
  {
    hide Absorbed, LE, Zeros;
    assert before + [] == before;
    HashUpdate(g, s, txin.txId, before);
    ghost var p: seq<byte> := txin.txId;
    FeedLe(g, s, outer, txin.index, 4, before, p);
    p := p + LE(txin.index, 4);
    Clear(outer);
    ZeroBytes();
    assert outer[..2] == Zeros(2);
    HashUpdate(g, s, outer[..2], before, p);
    p := p + [0, 0];
    FeedScript(g, s, outer, key, before, p);
    p := p + LE(34, 8) + ([0x20] + key + [OP_CHECKSIG]);
    FeedLe(g, s, outer, txin.value, 8, before, p);
    p := p + LE(txin.value, 8);
    FeedLe(g, s, outer, txin.sequence, 8, before, p);
    p := p + LE(txin.sequence, 8);
    FeedOne(g, s, outer, before, p);
    Clear(outer);
  }

  /** The signing key's script, its length first; the length bytes are overwritten, not cleared. */
  method FeedScript(g: Blake2b.Scratch, s: Blake2b.State, outer: array<byte>, key: Bytes32, ghost before: seq<byte>,
                    ghost part: seq<byte>)
    requires Absorbed(s, g, before + part) && outer.Length == 36 && outer != s.buf
    modifies s`buflen, s`fed, s`blocks, s.h, s.t, s.buf, g.m, g.v, outer
    ensures Absorbed(s, g, before + (part + LE(34, 8) + ([0x20] + key + [OP_CHECKSIG])))
  {
    hide Absorbed, LE;
    WriteLe(outer, 0, 34, 8);
    assert outer[..8] == LE(34, 8);
    HashUpdate(g, s, outer[..8], before, part);
    var ok := CalcTxinScriptPublicKey(key, outer, 36);
    assert outer[..34] == [0x20] + key + [OP_CHECKSIG];
    HashUpdate(g, s, outer[..34], before, part + LE(34, 8));
  }

  /** A single byte 1 through a cleared scratch. */
  method FeedOne(g: Blake2b.Scratch, s: Blake2b.State, outer: array<byte>, ghost before: seq<byte>, ghost part: seq<byte>)
    requires Absorbed(s, g, before + part) && outer.Length == 36 && outer != s.buf
    modifies s`buflen, s`fed, s`blocks, s.h, s.t, s.buf, g.m, g.v, outer
    ensures Absorbed(s, g, before + (part + [1]))
  {
    hide Absorbed;
    Clear(outer);
    outer[0] := 0x01;
    assert outer[..1] == [1];
    HashUpdate(g, s, outer[..1], before, part);
  }

  /** The outputs digest, then lock time, subnetwork, gas, payload digest and sighash type. */
  method FeedTail(g: Blake2b.Scratch, s: Blake2b.State, outer: array<byte>, tx: Tx, ghost before: seq<byte>)
    requires Absorbed(s, g, before) && s.Apart(g) && Sound(tx)
    requires outer.Length == 36 && outer != s.buf && outer != g.buffer && outer != g.block1
    modifies s`buflen, s`fed, s`blocks, s.h, s.t, s.buf, g.m, g.v, g.buffer, g.block1, outer
    ensures Absorbed(s, g, before + TailPart(tx))
  {
    hide Absorbed, H, Zeros;
    assert before + [] == before;
    var ok := CalcOutputsHash(g, tx, outer, 36);
    ghost var p := H(OutputsBytes(tx.Outs()));
    assert outer[..32] == p;
    HashUpdate(g, s, outer[..32], before);
    Clear(outer);
    PrefixOfZeros();
    HashUpdate(g, s, outer[..8], before, p);
    HashUpdate(g, s, outer[..20], before, p + Zeros(8));
    HashUpdate(g, s, outer[..8], before, p + Zeros(8) + Zeros(20));
    HashUpdate(g, s, outer[..32], before, p + Zeros(8) + Zeros(20) + Zeros(8));
    FeedOne(g, s, outer, before, p + Zeros(8) + Zeros(20) + Zeros(8) + Zeros(32));
  }

  lemma PrefixOfZeros()
    ensures Zeros(36)[..8] == Zeros(8) && Zeros(36)[..20] == Zeros(20) && Zeros(36)[..32] == Zeros(32)
  {
  }
}

/** What a reader finds at each position of the hashed strings, the chunks and the response, in plain numbers. */
module FieldTables {
  import opened Bytes
  import opened Word64
  import opened Transaction
  import opened Wire
  import opened SighashSpec
  import opened SessionSpec
  import Address
  import Cashaddr
  import Checksum

  // ----- numbers and text

  lemma DivideTwice(v: nat, p: nat)
    requires p > 0
    ensures v / 256 / p == v / (256 * p)
  {
    var q, r, s := v / 256 / p, v / 256 % p, v % 256;
    assert v / 256 == q * p + r;
    assert v == q * (256 * p) + (256 * r + s);
    DivModUnique(q, 256 * r + s, 256 * p);
  }

  /** Byte i counts 256^i, from the front in little-endian and from the back in big-endian encodings. */
  lemma {:induction false} ByteAt(v: nat, n: nat, i: nat)
    requires i < n
    ensures LE(v, n)[i] == v / Pow256(i) % 256
    ensures BE(v, n)[n - 1 - i] == v / Pow256(i) % 256
    decreases n
  {
    if i == 0 {
      assert v / 1 == v;
    } else {
      ByteAt(v / 256, n - 1, i - 1);
      DivideTwice(v, Pow256(i - 1));
    }
  }

  /** The bytes of an ASCII text. */
  predicate Spells(bytes: seq<byte>, text: string) {
    |bytes| == |text| && forall i :: 0 <= i < |text| ==> bytes[i] == text[i] as int
  }

  lemma Texts()
    ensures Spells(SIGNING_KEY, "TransactionSigningHash")
    ensures Spells(Address.HRP, "kaspa:") && Spells(Checksum.KASPA, "kaspa")
  {
  }

  lemma Alphabet()
    ensures Spells(Cashaddr.CHARSET, "qpzry9x8gf2tvdw0s3jn54khce6mua7l")
  {
  }

  // ----- the sighash

  /** The bytes x lie at position i of p. */
  predicate At(p: seq<byte>, i: nat, x: seq<byte>) {
    i + |x| <= |p| && p[i..i + |x|] == x
  }

  /** x and then y lead p. */
  lemma Leading(x: seq<byte>, y: seq<byte>, p: seq<byte>)
    requires x + y <= p
    ensures x <= p && At(p, |x|, y)
  {
  }

  lemma Inside(p: seq<byte>, i: nat, q: seq<byte>, j: nat, x: seq<byte>)
    requires At(p, i, q) && At(q, j, x)
    ensures At(p, i + j, x)
  {
    forall t | 0 <= t < |x| ensures p[i + j + t] == x[t] {
      assert p[i + j + t] == p[i..i + |q|][j + t];
      assert q[j + t] == q[j..j + |x|][t];
    }
  }

  /** The fields of the 296 hashed bytes and where they lie. */
  ghost predicate Hashed(p: seq<byte>, tx: Tx, txin: Input, key: Bytes32)
    requires tx.InBounds()
  {
    hide Outer, LE, At, Zeros;
    && Outer(p, tx)
    && At(p, 98, txin.txId)
    && At(p, 130, LE(txin.index, 4))
    && At(p, 134, [0, 0])
    && At(p, 136, LE(34, 8))
    && At(p, 144, [0x20] + key + [0xac])
    && At(p, 178, LE(txin.value, 8))
    && At(p, 186, LE(txin.sequence, 8))
    && At(p, 194, [1])
  }

  /** Those that do not depend on the signing input. */
  ghost predicate Outer(p: seq<byte>, tx: Tx)
    requires tx.InBounds()
  {
    hide H, LE, At;
    && At(p, 0, LE(tx.version, 2))
    && At(p, 2, H(PrevOutputsBytes(tx.Ins())))
    && At(p, 34, H(SequencesBytes(tx.Ins())))
    && At(p, 66, H(SigOpBytes(tx.Ins())))
    && At(p, 195, H(OutputsBytes(tx.Outs())))
    && At(p, 227, Zeros(68))
    && At(p, 295, [1])
  }

  lemma PreimageFields(tx: Tx, txin: Input, key: Bytes32)
    requires tx.InBounds()
    ensures Hashed(Preimage(tx, txin, key), tx, txin, key)
  {
    hide Preimage, InputBytes, Outer, At, LE;
    var p, k := Preimage(tx, txin, key), InputBytes(txin, key);
    InputFields(txin, key);
    OuterFields(tx, txin, key);
    Inside(p, 98, k, 0, txin.txId);
    Inside(p, 98, k, 32, LE(txin.index, 4));
    Inside(p, 98, k, 36, [0, 0]);
    Inside(p, 98, k, 38, LE(34, 8));
    Inside(p, 98, k, 46, [0x20] + key + [0xac]);
    Inside(p, 98, k, 80, LE(txin.value, 8));
    Inside(p, 98, k, 88, LE(txin.sequence, 8));
    Inside(p, 98, k, 96, [1]);
  }

  lemma OuterFields(tx: Tx, txin: Input, key: Bytes32)
    requires tx.InBounds()
    ensures Outer(Preimage(tx, txin, key), tx) && At(Preimage(tx, txin, key), 98, InputBytes(txin, key))
  {
    hide H, LE, InputBytes, Zeros, At;
    var p, z := Preimage(tx, txin, key), Zeros(8) + Zeros(20) + Zeros(8) + Zeros(32);
    var p0 := LE(tx.version, 2);
    var p1 := p0 + H(PrevOutputsBytes(tx.Ins()));
    var p2 := p1 + H(SequencesBytes(tx.Ins()));
    var p3 := p2 + H(SigOpBytes(tx.Ins()));
    var p4 := p3 + InputBytes(txin, key);
    var p5 := p4 + H(OutputsBytes(tx.Outs()));
    InputFields(txin, key);
    PaddingZeros();
    assert p == p5 + z + [1];
    Leading(p5 + z, [1], p);
    Leading(p5, z, p);
    Leading(p4, H(OutputsBytes(tx.Outs())), p);
    Leading(p3, InputBytes(txin, key), p);
    Leading(p2, H(SigOpBytes(tx.Ins())), p);
    Leading(p1, H(SequencesBytes(tx.Ins())), p);
    Leading(p0, H(PrevOutputsBytes(tx.Ins())), p);
    assert [] + p0 == p0;
    Leading([], p0, p);
  }

  lemma PaddingZeros()
    ensures Zeros(8) + Zeros(20) + Zeros(8) + Zeros(32) == Zeros(68)
  {
  }

  lemma InputFields(txin: Input, key: Bytes32)
    ensures var p := InputBytes(txin, key);
            |p| == 97 && At(p, 0, txin.txId) && At(p, 32, LE(txin.index, 4)) && At(p, 36, [0, 0]) &&
            At(p, 38, LE(34, 8)) && At(p, 46, [0x20] + key + [0xac]) && At(p, 80, LE(txin.value, 8)) &&
            At(p, 88, LE(txin.sequence, 8)) && At(p, 96, [1])
  {
    hide LE, At;
    var p := InputBytes(txin, key);
    var p0 := txin.txId;
    var p1 := p0 + LE(txin.index, 4);
    var p2 := p1 + [0, 0];
    var p3 := p2 + LE(34, 8);
    var p4 := p3 + ([0x20] + key + [0xac]);
    var p5 := p4 + LE(txin.value, 8);
    Leading(p5 + LE(txin.sequence, 8), [1], p);
    Leading(p5, LE(txin.sequence, 8), p);
    Leading(p4, LE(txin.value, 8), p);
    Leading(p3, [0x20] + key + [0xac], p);
    Leading(p2, LE(34, 8), p);
    Leading(p1, [0, 0], p);
    Leading(p0, LE(txin.index, 4), p);
    assert [] + p0 == p0;
    Leading([], p0, p);
  }

  /** Input k takes 36 bytes of the outpoint stream, its transaction id and the index in four bytes. */
  lemma {:induction false} OutpointStream(ins: seq<Input>, k: nat)
    requires k < |ins|
    ensures var p := PrevOutputsBytes(ins);
            |p| == 36 * |ins| && At(p, 36 * k, ins[k].txId) && At(p, 36 * k + 32, LE(ins[k].index, 4))
  {
    hide LE, At, OutpointBytes;
    var n := |ins| - 1;
    var front, last := PrevOutputsBytes(ins[..n]), OutpointBytes(ins[n]);
    var p := PrevOutputsBytes(ins);
    OutpointFields(ins[n]);
    if n == 0 {
      assert ins[..0] == [];
    } else {
      OutpointStream(ins[..n], if k < n then k else 0);
    }
    assert |front| == 36 * n && p == front + last;
    Leading(front, last, p);
    if k < n {
      assert [] + front == front;
      Leading([], front, p);
      Inside(p, 0, front, 36 * k, ins[k].txId);
      Inside(p, 0, front, 36 * k + 32, LE(ins[k].index, 4));
    } else {
      Inside(p, 36 * n, last, 0, ins[k].txId);
      Inside(p, 36 * n, last, 32, LE(ins[k].index, 4));
    }
  }

  lemma OutpointFields(i: Input)
    ensures var p := OutpointBytes(i); |p| == 36 && At(p, 0, i.txId) && At(p, 32, LE(i.index, 4))
  {
    hide LE;
  }

  /** Eight bytes of the sequence stream. */
  lemma {:induction false} SequenceStream(ins: seq<Input>, k: nat)
    requires k < |ins|
    ensures var p := SequencesBytes(ins); |p| == 8 * |ins| && At(p, 8 * k, LE(ins[k].sequence, 8))
  {
    hide LE, At;
    var n := |ins| - 1;
    var front, last := SequencesBytes(ins[..n]), LE(ins[n].sequence, 8);
    var p := SequencesBytes(ins);
    if n == 0 {
      assert ins[..0] == [];
    } else {
      SequenceStream(ins[..n], if k < n then k else 0);
    }
    assert |front| == 8 * n && p == front + last;
    Leading(front, last, p);
    if k < n {
      assert [] + front == front;
      Leading([], front, p);
      Inside(p, 0, front, 8 * k, LE(ins[k].sequence, 8));
    }
  }

  /** One byte of the signature operations' stream, always 1. */
  lemma {:induction false} SigOpStream(ins: seq<Input>)
    ensures SigOpBytes(ins) == seq(|ins|, _ => 1)
  {
    if ins == [] {
    } else {
      SigOpStream(ins[..|ins| - 1]);
    }
  }

  /** One output in the outputs stream: value, version 0, script length, script. */
  lemma OutputFields(o: Output)
    requires IsAccepted(o.script)
    ensures var p, n := OutputBytes(o), if o.script[0] == 0x20 then 34 else 35;
            |p| == 18 + n && p[0..8] == LE(o.value, 8) && p[8..10] == Zeros(2) && p[10..18] == LE(n, 8) &&
            p[18..] == o.script[..n]
  {
    hide LE;
  }

  /** The outputs stream is its outputs in order. */
  lemma {:induction false} OutputStream(a: seq<Output>, b: seq<Output>, o: Output)
    ensures OutputsBytes([]) == [] && OutputsBytes([o]) == OutputBytes(o)
    ensures OutputsBytes(a + b) == OutputsBytes(a) + OutputsBytes(b)
    decreases |b|
  {
    hide OutputBytes;
    assert [o][..0] == [];
    if b == [] {
      assert a + b == a;
    } else {
      var n := |b| - 1;
      OutputStream(a, b[..n], o);
      assert (a + b)[..|a| + n] == a + b[..n];
    }
  }

  // ----- scripts, chunks and the response

  /** The accepted scripts, by their opcodes. */
  lemma AcceptedForms(s: ScriptBuffer)
    ensures IsAccepted(s) <==>
              || (s[0] == 0x20 && s[33] == 0xac)
              || (s[0] == 0x21 && s[34] == 0xab)
              || (s[0] == 0xaa && s[1] == 0x20 && s[34] == 0x87)
    ensures IsAccepted(s) ==> |Script(s)| == if s[0] == 0x20 then 34 else 35
  {
  }

  lemma HeaderFields(h: Header)
    ensures var p := EncodeHeader(h);
            |p| == 13 && p[0..2] == BE(h.version, 2) && p[2] == h.outputLen && p[3] == h.inputLen &&
            p[4] == h.changeType && p[5..9] == BE(h.changeIndex, 4) && p[9..13] == BE(h.account, 4)
  {
    hide BE;
  }

  lemma OutputChunkFields(o: Output)
    ensures var p := EncodeOutput(o);
            p[0..8] == BE(o.value, 8) && p[8..] == Script(o.script)
  {
    hide BE;
  }

  lemma InputChunkFields(i: Input)
    ensures var p := EncodeInput(i);
            |p| == 46 && p[0..8] == BE(i.value, 8) && p[8..40] == i.txId && p[40] == i.addressType &&
            p[41..45] == BE(i.addressIndex, 4) && p[45] == i.index
  {
    hide BE;
  }

  lemma ResponseFields(hasMore: u8, inputIndex: u8, signature: seq<byte>, sighash: Bytes32)
    requires |signature| == 64
    ensures var p := ResponseBytes(hasMore, inputIndex, signature, sighash);
            p[0] == hasMore && p[1] == inputIndex && p[2] == 64 && p[3..67] == signature && p[67] == 32 &&
            p[68..100] == sighash
  {
  }
}

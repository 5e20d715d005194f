/** What a signature binds: equal sighashes mean equal signed contents, or an explicit hash collision. */
module SighashBinding {
  import opened Bytes
  import opened Transaction
  import opened SighashSpec
  import Serialize

  lemma Peel(p: seq<byte>, x: seq<byte>, q: seq<byte>, y: seq<byte>)
    requires |x| == |y| && p + x == q + y
    ensures p == q && x == y
  {
    assert p == (p + x)[..|p|] && q == (q + y)[..|q|];
    assert x == (p + x)[|p|..] && y == (q + y)[|q|..];
  }

  lemma PeelFront(x: seq<byte>, p: seq<byte>, y: seq<byte>, q: seq<byte>)
    requires |x| == |y| && x + p == y + q
    ensures p == q && x == y
  {
    assert x == (x + p)[..|x|] && p == (x + p)[|x|..];
    assert y == (y + q)[..|y|] && q == (y + q)[|y|..];
  }

  lemma SameLE8(a: u64, b: u64)
    requires LE(a, 8) == LE(b, 8)
    ensures a == b
  {
    WidthBounds();
    InjectiveLE(a, b, 8);
  }

  ghost predicate SameOutpoint(i: Input, j: Input) {
    i.txId == j.txId && i.index == j.index
  }

  lemma OutpointInjective(i: Input, j: Input)
    requires OutpointBytes(i) == OutpointBytes(j)
    ensures SameOutpoint(i, j)
  {
    Peel(i.txId, LE(i.index, 4), j.txId, LE(j.index, 4));
    WidthBounds();
    InjectiveLE(i.index, j.index, 4);
  }

  lemma OutpointSize(i: Input)
    ensures |OutpointBytes(i)| == 36
  {
  }

  ghost predicate SameOutpoints(a: seq<Input>, b: seq<Input>) {
    |a| == |b| && forall k :: 0 <= k < |a| ==> SameOutpoint(a[k], b[k])
  }

  ghost predicate SameSequences(a: seq<Input>, b: seq<Input>) {
    |a| == |b| && forall k :: 0 <= k < |a| ==> a[k].sequence == b[k].sequence
  }

  ghost predicate SameOutputs(a: seq<Output>, b: seq<Output>) {
    |a| == |b| &&
    forall k :: 0 <= k < |a| ==> a[k].value == b[k].value && Script(a[k].script) == Script(b[k].script)
  }

  lemma {:induction false} PrevOutputsInjective(a: seq<Input>, b: seq<Input>)
    requires PrevOutputsBytes(a) == PrevOutputsBytes(b)
    ensures SameOutpoints(a, b)
  {
    hide OutpointBytes;
    if a == [] || b == [] {
      if a != [] { OutpointSize(a[|a| - 1]); }
      if b != [] { OutpointSize(b[|b| - 1]); }
    } else {
      OutpointSize(a[|a| - 1]);
      OutpointSize(b[|b| - 1]);
      var x, y := a[|a| - 1], b[|b| - 1];
      Peel(PrevOutputsBytes(a[..|a| - 1]), OutpointBytes(x), PrevOutputsBytes(b[..|b| - 1]), OutpointBytes(y));
      OutpointInjective(x, y);
      PrevOutputsInjective(a[..|a| - 1], b[..|b| - 1]);
    }
  }

  lemma {:induction false} SequencesInjective(a: seq<Input>, b: seq<Input>)
    requires SequencesBytes(a) == SequencesBytes(b)
    ensures SameSequences(a, b)
  {
    hide LE;
    if a == [] || b == [] {
    } else {
      var x, y := a[|a| - 1].sequence, b[|b| - 1].sequence;
      Peel(SequencesBytes(a[..|a| - 1]), LE(x, 8), SequencesBytes(b[..|b| - 1]), LE(y, 8));
      SameLE8(x, y);
      SequencesInjective(a[..|a| - 1], b[..|b| - 1]);
    }
  }

  ghost predicate AllAccepted(outs: seq<Output>) {
    forall k :: 0 <= k < |outs| ==> IsAccepted(outs[k].script)
  }

  lemma PeelFields(v: seq<byte>, m: seq<byte>, x: seq<byte>, w: seq<byte>, n: seq<byte>, y: seq<byte>)
    requires |v| == |w| && |m| == |n| && v + ([0, 0] + (m + x)) == w + ([0, 0] + (n + y))
    ensures v == w && m == n && x == y
  {
    PeelFront(v, [0, 0] + (m + x), w, [0, 0] + (n + y));
    PeelFront([0, 0], m + x, [0, 0], n + y);
    PeelFront(m, x, n, y);
  }

  /** No output's bytes can be cut short or run on into the next output's. */
  lemma OutputPrefixFree(o: Output, r: seq<byte>, p: Output, t: seq<byte>)
    requires IsAccepted(o.script) && IsAccepted(p.script)
    requires OutputBytes(o) + r == OutputBytes(p) + t
    ensures o.value == p.value && Script(o.script) == Script(p.script) && r == t
  {
    hide LE, IsAccepted, Script, OutputBytes, HashedScript;
    var v, w := LE(o.value, 8), LE(p.value, 8);
    var m, n := LE(HashedScriptLen(o.script), 8), LE(HashedScriptLen(p.script), 8);
    var x, y := HashedScript(o.script), HashedScript(p.script);
    OutputLayout(o, r);
    OutputLayout(p, t);
    PeelFields(v, m, x + r, w, n, y + t);
    SameLE8(o.value, p.value);
    SameLE8(HashedScriptLen(o.script), HashedScriptLen(p.script));
    HashedIsScript(o.script);
    HashedIsScript(p.script);
    PeelFront(x, r, y, t);
  }

  lemma OutputLayout(o: Output, r: seq<byte>)
    ensures OutputBytes(o) + r
         == LE(o.value, 8) + ([0, 0] + (LE(HashedScriptLen(o.script), 8) + (HashedScript(o.script) + r)))
  {
    hide LE, HashedScript;
  }

  lemma HashedIsScript(s: ScriptBuffer)
    requires IsAccepted(s)
    ensures HashedScript(s) == Script(s) && |Script(s)| == HashedScriptLen(s)
  {
    Serialize.ScriptLengthsAgree(s);
  }

  lemma {:induction false} OutputsFront(outs: seq<Output>)
    requires outs != []
    ensures OutputsBytes(outs) == OutputBytes(outs[0]) + OutputsBytes(outs[1..])
  {
    hide OutputBytes;
    var n := |outs| - 1;
    if n == 0 {
    } else {
      OutputsFront(outs[..n]);
      assert outs[..n][1..] == outs[1..][..n - 1];
    }
  }

  /** The byte stream of calc_outputs_hash determines the list of outputs. */
  lemma {:induction false} OutputsInjective(a: seq<Output>, b: seq<Output>)
    requires AllAccepted(a) && AllAccepted(b) && OutputsBytes(a) == OutputsBytes(b)
    ensures SameOutputs(a, b)
  {
    hide OutputBytes;
    if a == [] || b == [] {
      if a != [] { OutputNonempty(a); }
      if b != [] { OutputNonempty(b); }
    } else {
      OutputsFront(a);
      OutputsFront(b);
      OutputPrefixFree(a[0], OutputsBytes(a[1..]), b[0], OutputsBytes(b[1..]));
      OutputsInjective(a[1..], b[1..]);
      forall k | 0 < k < |a| ensures a[k].value == b[k].value && Script(a[k].script) == Script(b[k].script) {
        assert a[k] == a[1..][k - 1] && b[k] == b[1..][k - 1];
      }
    }
  }

  lemma OutputNonempty(outs: seq<Output>)
    requires outs != []
    ensures OutputsBytes(outs) != []
  {
  }

  ghost predicate Collide(x: seq<byte>, y: seq<byte>) {
    hide H;
    x != y && H(x) == H(y)
  }

  /** Everything a signature over one input commits to. */
  ghost predicate Agree(t: Tx, i: Input, k: Bytes32, u: Tx, j: Input, l: Bytes32)
    requires t.InBounds() && u.InBounds()
  {
    && t.version == u.version
    && SameOutpoints(t.Ins(), u.Ins()) && SameSequences(t.Ins(), u.Ins()) && SameOutputs(t.Outs(), u.Outs())
    && SameOutpoint(i, j) && i.value == j.value && i.sequence == j.sequence && k == l
  }

  lemma InputInjective(i: Input, k: Bytes32, j: Input, l: Bytes32)
    requires InputBytes(i, k) == InputBytes(j, l)
    ensures SameOutpoint(i, j) && i.value == j.value && i.sequence == j.sequence && k == l
  {
    hide LE;
    var s, t: seq<byte> := [0x20] + k + [OP_CHECKSIG], [0x20] + l + [OP_CHECKSIG];
    var a := OutpointBytes(i) + [0, 0] + LE(34, 8);
    var b := OutpointBytes(j) + [0, 0] + LE(34, 8);
    Peel(a + s + LE(i.value, 8) + LE(i.sequence, 8), [1], b + t + LE(j.value, 8) + LE(j.sequence, 8), [1]);
    Peel(a + s + LE(i.value, 8), LE(i.sequence, 8), b + t + LE(j.value, 8), LE(j.sequence, 8));
    Peel(a + s, LE(i.value, 8), b + t, LE(j.value, 8));
    Peel(a, s, b, t);
    Peel(OutpointBytes(i) + [0, 0], LE(34, 8), OutpointBytes(j) + [0, 0], LE(34, 8));
    Peel(OutpointBytes(i), [0, 0], OutpointBytes(j), [0, 0]);
    Peel([0x20] + k, [OP_CHECKSIG], [0x20] + l, [OP_CHECKSIG]);
    PeelFront([0x20], k, [0x20], l);
    OutpointInjective(i, j);
    SameLE8(i.value, j.value);
    SameLE8(i.sequence, j.sequence);
  }

  ghost predicate SameParts(t: Tx, i: Input, k: Bytes32, u: Tx, j: Input, l: Bytes32)
    requires t.InBounds() && u.InBounds()
  {
    hide H;
    && LE(t.version, 2) == LE(u.version, 2)
    && H(PrevOutputsBytes(t.Ins())) == H(PrevOutputsBytes(u.Ins()))
    && H(SequencesBytes(t.Ins())) == H(SequencesBytes(u.Ins()))
    && InputBytes(i, k) == InputBytes(j, l)
    && H(OutputsBytes(t.Outs())) == H(OutputsBytes(u.Outs()))
  }

  lemma PreimageInjective(t: Tx, i: Input, k: Bytes32, u: Tx, j: Input, l: Bytes32)
    requires t.InBounds() && u.InBounds() && Preimage(t, i, k) == Preimage(u, j, l)
    ensures SameParts(t, i, k, u, j, l)
  {
    hide H, LE, Zeros, InputBytes;
    var a, b := LE(t.version, 2), LE(u.version, 2);
    var a1, b1 := H(PrevOutputsBytes(t.Ins())), H(PrevOutputsBytes(u.Ins()));
    var a2, b2 := H(SequencesBytes(t.Ins())), H(SequencesBytes(u.Ins()));
    var a3, b3 := H(SigOpBytes(t.Ins())), H(SigOpBytes(u.Ins()));
    var a4, b4 := InputBytes(i, k), InputBytes(j, l);
    var a5, b5 := H(OutputsBytes(t.Outs())), H(OutputsBytes(u.Outs()));
    InputSize(i, k);
    InputSize(j, l);
    var p, q := a + a1 + a2 + a3 + a4 + a5, b + b1 + b2 + b3 + b4 + b5;
    Peel(p + Zeros(8) + Zeros(20) + Zeros(8) + Zeros(32), [1], q + Zeros(8) + Zeros(20) + Zeros(8) + Zeros(32), [1]);
    Peel(p + Zeros(8) + Zeros(20) + Zeros(8), Zeros(32), q + Zeros(8) + Zeros(20) + Zeros(8), Zeros(32));
    Peel(p + Zeros(8) + Zeros(20), Zeros(8), q + Zeros(8) + Zeros(20), Zeros(8));
    Peel(p + Zeros(8), Zeros(20), q + Zeros(8), Zeros(20));
    Peel(p, Zeros(8), q, Zeros(8));
    Peel(a + a1 + a2 + a3 + a4, a5, b + b1 + b2 + b3 + b4, b5);
    Peel(a + a1 + a2 + a3, a4, b + b1 + b2 + b3, b4);
    Peel(a + a1 + a2, a3, b + b1 + b2, b3);
    Peel(a + a1, a2, b + b1, b2);
    Peel(a, a1, b, b1);
  }

  lemma InputSize(i: Input, k: Bytes32)
    ensures |InputBytes(i, k)| == 97
  {
  }

  /** The four pairs of byte strings that could collide. */
  ghost predicate Collision(t: Tx, i: Input, k: Bytes32, u: Tx, j: Input, l: Bytes32)
    requires t.InBounds() && u.InBounds()
  {
    hide H, Preimage;
    || Collide(Preimage(t, i, k), Preimage(u, j, l))
    || Collide(PrevOutputsBytes(t.Ins()), PrevOutputsBytes(u.Ins()))
    || Collide(SequencesBytes(t.Ins()), SequencesBytes(u.Ins()))
    || Collide(OutputsBytes(t.Outs()), OutputsBytes(u.Outs()))
  }

  /** Equal sighashes: the signed contents agree, or one of four named pairs of byte strings collides. */
  lemma SighashBinds(t: Tx, i: Input, k: Bytes32, u: Tx, j: Input, l: Bytes32)
    requires t.InBounds() && u.InBounds() && AllAccepted(t.Outs()) && AllAccepted(u.Outs())
    requires SigHash(t, i, k) == SigHash(u, j, l)
    ensures Agree(t, i, k, u, j, l) || Collision(t, i, k, u, j, l)
  {
    hide H, Preimage, InputBytes;
    if Preimage(t, i, k) == Preimage(u, j, l) {
      PreimageInjective(t, i, k, u, j, l);
      InputInjective(i, k, j, l);
      WidthBounds();
      InjectiveLE(t.version, u.version, 2);
      if PrevOutputsBytes(t.Ins()) == PrevOutputsBytes(u.Ins()) {
        PrevOutputsInjective(t.Ins(), u.Ins());
      }
      if SequencesBytes(t.Ins()) == SequencesBytes(u.Ins()) {
        SequencesInjective(t.Ins(), u.Ins());
      }
      if OutputsBytes(t.Outs()) == OutputsBytes(u.Outs()) {
        OutputsInjective(t.Outs(), u.Outs());
      }
    }
  }

  lemma {:induction false} SameInputStreams(a: seq<Input>, b: seq<Input>)
    requires SameOutpoints(a, b) && SameSequences(a, b)
    ensures PrevOutputsBytes(a) == PrevOutputsBytes(b)
    ensures SequencesBytes(a) == SequencesBytes(b)
    ensures SigOpBytes(a) == SigOpBytes(b)
  {
    if a == [] {
    } else {
      SameInputStreams(a[..|a| - 1], b[..|b| - 1]);
    }
  }

  lemma SameOutputBytes(o: Output, p: Output)
    requires IsAccepted(o.script) && IsAccepted(p.script)
    requires o.value == p.value && Script(o.script) == Script(p.script)
    ensures OutputBytes(o) == OutputBytes(p)
  {
    Serialize.ScriptLengthsAgree(o.script);
    Serialize.ScriptLengthsAgree(p.script);
  }

  lemma {:induction false} SameOutputStreams(a: seq<Output>, b: seq<Output>)
    requires SameOutputs(a, b) && AllAccepted(a) && AllAccepted(b)
    ensures OutputsBytes(a) == OutputsBytes(b)
  {
    if a == [] {
    } else {
      SameOutputBytes(a[|a| - 1], b[|b| - 1]);
      SameOutputStreams(a[..|a| - 1], b[..|b| - 1]);
    }
  }

  /** The converse: nothing beyond the agreed contents enters the sighash. */
  lemma AgreementGivesSameSighash(t: Tx, i: Input, k: Bytes32, u: Tx, j: Input, l: Bytes32)
    requires t.InBounds() && u.InBounds() && AllAccepted(t.Outs()) && AllAccepted(u.Outs())
    requires Agree(t, i, k, u, j, l)
    ensures SigHash(t, i, k) == SigHash(u, j, l)
  {
    hide H;
    SameInputStreams(t.Ins(), u.Ins());
    SameOutputStreams(t.Outs(), u.Outs());
  }
}

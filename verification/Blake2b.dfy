/** The streaming BLAKE2b of src/import/blake2b.c, proved to compute RFC 7693's digest. */
module Blake2b {
  import opened Bytes
  import opened Word64
  import opened Rfc7693

  /** blake2b_sigma: twelve stored rows. */
  const STORED_0: Row := [0, 1, 2, 3, 4, 5, 6, 7, 8, 9, 10, 11, 12, 13, 14, 15]
  const STORED_1: Row := [14, 10, 4, 8, 9, 15, 13, 6, 1, 12, 0, 2, 11, 7, 5, 3]
  const STORED_2: Row := [11, 8, 12, 0, 5, 2, 15, 13, 10, 14, 3, 6, 7, 1, 9, 4]
  const STORED_3: Row := [7, 9, 3, 1, 13, 12, 11, 14, 2, 6, 5, 10, 4, 0, 15, 8]
  const STORED_4: Row := [9, 0, 5, 7, 2, 4, 10, 15, 14, 1, 11, 12, 6, 8, 3, 13]
  const STORED_5: Row := [2, 12, 6, 10, 0, 11, 8, 3, 4, 13, 7, 5, 15, 14, 1, 9]
  const STORED_6: Row := [12, 5, 1, 15, 14, 13, 4, 10, 0, 7, 6, 3, 9, 2, 8, 11]
  const STORED_7: Row := [13, 11, 7, 14, 12, 1, 3, 9, 5, 0, 15, 4, 8, 6, 2, 10]
  const STORED_8: Row := [6, 15, 14, 9, 11, 3, 0, 8, 12, 2, 13, 7, 1, 4, 10, 5]
  const STORED_9: Row := [10, 2, 8, 4, 7, 6, 1, 5, 15, 11, 9, 14, 3, 12, 13, 0]
  const STORED_10: Row := [0, 1, 2, 3, 4, 5, 6, 7, 8, 9, 10, 11, 12, 13, 14, 15]
  const STORED_11: Row := [14, 10, 4, 8, 9, 15, 13, 6, 1, 12, 0, 2, 11, 7, 5, 3]

  function StoredSigma(r: nat): Row
    requires r < 12
  {
    match r
    case 0 => STORED_0
    case 1 => STORED_1
    case 2 => STORED_2
    case 3 => STORED_3
    case 4 => STORED_4
    case 5 => STORED_5
    case 6 => STORED_6
    case 7 => STORED_7
    case 8 => STORED_8
    case 9 => STORED_9
    case 10 => STORED_10
    case _ => STORED_11
  }

  lemma StoredSigmaIsRfc(r: nat)
    requires r < 12
    ensures StoredSigma(r) == Sigma(r % 10)
  {
  }

  /** Blocks before a common prefix's end do not see what follows it. */
  lemma {:induction false} ChainPrefix(h: Chaining, data: seq<byte>, more: seq<byte>, n: nat)
    requires BLOCK_BYTES * n <= |data|
    ensures Chain(h, data + more, n) == Chain(h, data, n)
    decreases n
  {
    hide F;
    if n == 0 {
    } else {
      ChainPrefix(h, data, more, n - 1);
      assert Block(data + more, n - 1) == Block(data, n - 1);
    }
  }

  /** The static scratch b2bg_cx, shared by every hash state. */
  class Scratch {
    const m: array<word>
    const v: array<word>
    const buffer: array<byte>
    const block1: array<byte>

    ghost predicate Valid() {
      m.Length == 16 && v.Length == 16 && m != v && buffer.Length == 64 && block1.Length == BLOCK_BYTES &&
      buffer != block1
    }

    constructor ()
      ensures Valid() && fresh(m) && fresh(v) && fresh(buffer) && fresh(block1)
    {
      m, v := new word[16], new word[16];
      buffer, block1 := new byte[64], new byte[BLOCK_BYTES];
    }
  }

  lemma PutTwice(v: Vector, l: Lane, p: Quad, q: Quad)
    requires l.Ok()
    ensures Get(Put(v, l, p), l) == p
    ensures Put(Put(v, l, p), l, q) == Put(v, l, q)
  {
  }

  /** One half of macro G on the scratch vector. */
  method MixHalf(g: Scratch, ghost l: Lane, a: nat, b: nat, c: nat, d: nat, x: word, r: nat, s: nat)
    requires g.Valid() && l.Ok() && l == Lane(a, b, c, d) && 0 < r < 64 && 0 < s < 64
    modifies g.v
    ensures g.v[..] == Put(old(g.v[..]), l, HalfG(Get(old(g.v[..]), l), x, r, s))
  {
    hide Add, Xor, RotR;
    g.v[a] := Add(Add(g.v[a], g.v[b]), x);
    g.v[d] := RotR(Xor(g.v[d], g.v[a]), r);
    g.v[c] := Add(g.v[c], g.v[d]);
    g.v[b] := RotR(Xor(g.v[b], g.v[c]), s);
  }

  /** Macro G on the scratch vector. */
  method MixLane(g: Scratch, r: nat, i: nat, a: nat, b: nat, c: nat, d: nat, ghost v0: Vector)
    requires g.Valid() && r < 12 && i < 8 && Lane(a, b, c, d) == LaneOf(i)
    requires g.v[..] == Mix(v0, g.m[..], Sigma(r % 10), i)
    modifies g.v
    ensures g.v[..] == Mix(v0, g.m[..], Sigma(r % 10), i + 1)
  {
    hide HalfG, LaneOf, Get, Put, Sigma, StoredSigma;
    StoredSigmaIsRfc(r);
    ghost var l, was := LaneOf(i), g.v[..];
    var sigma := StoredSigma(r);
    MixHalf(g, l, a, b, c, d, g.m[sigma[2 * i]], 32, 24);
    MixHalf(g, l, a, b, c, d, g.m[sigma[2 * i + 1]], 16, 63);
    ghost var q := HalfG(Get(was, l), g.m[sigma[2 * i]], 32, 24);
    PutTwice(was, l, q, HalfG(q, g.m[sigma[2 * i + 1]], 16, 63));
  }

  lemma MixNone(v: Vector, m: Vector, row: Row)
    ensures Mix(v, m, row, 0) == v
  {
  }

  /** Macro ROUND on the scratch vector. */
  method MixRound(g: Scratch, r: nat, ghost v0: Vector)
    requires g.Valid() && r < 12
    requires g.v[..] == Rounds(v0, g.m[..], r)
    modifies g.v
    ensures g.v[..] == Rounds(v0, g.m[..], r + 1)
  {
    hide Mix, Sigma;
    ghost var w: Vector := g.v[..];
    MixNone(w, g.m[..], Sigma(r % 10));
    MixLane(g, r, 0, 0, 4, 8, 12, w);
    MixLane(g, r, 1, 1, 5, 9, 13, w);
    MixLane(g, r, 2, 2, 6, 10, 14, w);
    MixLane(g, r, 3, 3, 7, 11, 15, w);
    MixLane(g, r, 4, 0, 5, 10, 15, w);
    MixLane(g, r, 5, 1, 6, 11, 12, w);
    MixLane(g, r, 6, 2, 7, 8, 13, w);
    MixLane(g, r, 7, 3, 4, 9, 14, w);
  }

  lemma RoundsNone(v: Vector, m: Vector)
    ensures Rounds(v, m, 0) == v
  {
  }

  /** The twelve ROUND lines of blake2b_compress. */
  method MixTwelve(g: Scratch)
    requires g.Valid()
    modifies g.v
    ensures g.v[..] == Rounds(old(g.v[..]), g.m[..], 12)
  {
    hide Rounds;
    ghost var v0: Vector := g.v[..];
    RoundsNone(v0, g.m[..]);
    MixRound(g, 0, v0);
    MixRound(g, 1, v0);
    MixRound(g, 2, v0);
    MixRound(g, 3, v0);
    MixRound(g, 4, v0);
    MixRound(g, 5, v0);
    MixRound(g, 6, v0);
    MixRound(g, 7, v0);
    MixRound(g, 8, v0);
    MixRound(g, 9, v0);
    MixRound(g, 10, v0);
    MixRound(g, 11, v0);
  }

  /** blake2b_state. Ghost fields record the initial chaining value, the bytes fed so far
      and how many whole blocks of them are compressed. */
  class State {
    const h: array<word>
    const t: array<word>
    const f: array<word>
    const buf: array<byte>
    var buflen: nat
    var outlen: nat
    ghost var h0: Chaining
    ghost var fed: seq<byte>
    ghost var blocks: nat

    ghost predicate Valid() {
      h.Length == 8 && t.Length == 2 && f.Length == 2 && buf.Length == BLOCK_BYTES &&
      h != t && h != f && t != f
    }

    /** No array is shared with the global scratch. */
    ghost predicate Apart(g: Scratch) {
      g.Valid() && g.m !in {h, t, f} && g.v !in {h, t, f} && buf != g.buffer && buf != g.block1
    }

    /** The chaining value and counter after n whole blocks of data. */
    ghost predicate Chained(data: seq<byte>, n: nat)
      reads this, h, t, f
    {
      Valid() && BLOCK_BYTES * n <= |data| && h[..] == Chain(h0, data, n) && f[0] == 0 && f[1] == 0 &&
      t[0] == LowWord(BLOCK_BYTES * n) && t[1] == HighWord(BLOCK_BYTES * n)
    }

    /** Everything fed is either compressed or waits in buf; the last block always waits. */
    ghost predicate Streaming()
      reads this, h, t, f, buf
    {
      && Chained(fed, blocks)
      && |fed| == BLOCK_BYTES * blocks + buflen && buflen <= BLOCK_BYTES
      && (fed != [] ==> buflen > 0)
      && buf[..buflen] == fed[BLOCK_BYTES * blocks..]
      && 1 <= outlen <= 64
    }

    constructor ()
      ensures Valid() && fresh(h) && fresh(t) && fresh(f) && fresh(buf)
    {
      h, t, f, buf := new word[8], new word[2], new word[2], new byte[BLOCK_BYTES];
    }

    /** blake2b_increment_counter: the two limbs count modulo 2^128. */
    method IncrementCounter(inc: word, ghost n: nat)
      requires Valid() && t[0] == LowWord(n) && t[1] == HighWord(n)
      modifies t
      ensures t[0] == LowWord(n + inc) && t[1] == HighWord(n + inc)
    {
      t[0] := (t[0] + inc) % TWO_64;
      t[1] := (t[1] + (if t[0] < inc then 1 else 0)) % TWO_64;
      CounterCarry(n, inc);
    }

    /** First half of blake2b_compress: message words and starting vector. */
    method LoadVector(g: Scratch, block: seq<byte>, ghost n: nat, ghost last: bool)
      requires Valid() && Apart(g) && |block| == BLOCK_BYTES
      requires t[0] == LowWord(n) && t[1] == HighWord(n)
      requires f[0] == (if last then ALL_ONES else 0) && f[1] == 0
      modifies g.m, g.v
      ensures g.m[..] == BlockWords(block) && g.v[..] == StartVector(h[..], n, last)
    {
      hide WordAt, Xor, LowWord, HighWord;
      forall i | 0 <= i < 16 {
        g.m[i] := WordAt(block, i);
      }
      assert g.m[..] == BlockWords(block);
      forall i | 0 <= i < 8 {
        g.v[i] := h[i];
      }
      g.v[8], g.v[9], g.v[10], g.v[11] := IV[0], IV[1], IV[2], IV[3];
      g.v[12] := Xor(IV[4], t[0]);
      g.v[13] := Xor(IV[5], t[1]);
      g.v[14] := Xor(IV[6], f[0]);
      g.v[15] := Xor(IV[7], f[1]);
      XorZeroWord(IV[7]);
    }

    /** blake2b_compress: one application of F. */
    method Compress(g: Scratch, block: seq<byte>, ghost n: nat, ghost last: bool)
      requires Valid() && Apart(g) && |block| == BLOCK_BYTES
      requires t[0] == LowWord(n) && t[1] == HighWord(n)
      requires f[0] == (if last then ALL_ONES else 0) && f[1] == 0
      modifies h, g.m, g.v
      ensures h[..] == F(old(h[..]), BlockWords(block), n, last)
    {
      hide Rounds, BlockWords, StartVector, Xor;
      LoadVector(g, block, n, last);
      MixTwelve(g);
      ghost var v: Vector := g.v[..];
      forall i | 0 <= i < 8 {
        h[i] := Xor(Xor(h[i], g.v[i]), g.v[i + 8]);
      }
      assert h[..] == FoldVector(old(h[..]), v);
    }

    /** The counter step and compression of one non-final block. */
    method CompressNext(g: Scratch, block: seq<byte>, ghost data: seq<byte>)
      requires Apart(g) && Chained(data, blocks) && BLOCK_BYTES * (blocks + 1) <= |data|
      requires block == data[BLOCK_BYTES * blocks..][..BLOCK_BYTES]
      modifies this`blocks, h, t, g.m, g.v
      ensures Chained(data, blocks) && blocks == old(blocks) + 1
    {
      hide F, BlockWords, LowWord, HighWord;
      assert block == Block(data, blocks);
      IncrementCounter(BLOCK_BYTES, BLOCK_BYTES * blocks);
      Compress(g, block, BLOCK_BYTES * (blocks + 1), false);
      blocks := blocks + 1;
    }

    /** The closing memcpy of blake2b_update. */
    method HoldBack(pin: seq<byte>, ghost all: seq<byte>)
      requires Chained(all, blocks) && all != [] && pin != [] && 1 <= outlen <= 64
      requires buflen + |pin| <= BLOCK_BYTES && all[BLOCK_BYTES * blocks..] == buf[..buflen] + pin
      modifies this`buflen, this`fed, buf
      ensures Streaming() && fed == all
    {
      hide Chain, LowWord, HighWord;
      CopyInto(buf, buflen, pin);
      buflen := buflen + |pin|;
      fed := all;
    }

    /** The first compression of blake2b_update: the held-back bytes and the start of the data. */
    method CompressHeld(g: Scratch, pin: seq<byte>, ghost all: seq<byte>)
      requires Apart(g) && Chained(all, blocks) && buflen + |pin| == BLOCK_BYTES
      requires BLOCK_BYTES * (blocks + 1) <= |all|
      requires all[BLOCK_BYTES * blocks..][..BLOCK_BYTES] == buf[..buflen] + pin
      modifies this`buflen, this`blocks, h, t, buf, g.m, g.v
      ensures Chained(all, blocks) && blocks == old(blocks) + 1 && buflen == 0
    {
      hide Chain, LowWord, HighWord;
      var left := buflen;
      buflen := 0;
      CopyInto(buf, left, pin);
      assert buf[..] == old(buf[..left]) + pin;
      CompressNext(g, buf[..], all);
    }

    /** The loop of blake2b_update: whole blocks, as long as more follows. */
    method CompressWhole(g: Scratch, data: seq<byte>, ghost all: seq<byte>) returns (pin: seq<byte>)
      requires Apart(g) && Chained(all, blocks) && data != [] && data == all[BLOCK_BYTES * blocks..]
      modifies this`blocks, h, t, g.m, g.v
      ensures Chained(all, blocks) && 0 < |pin| <= BLOCK_BYTES && pin == all[BLOCK_BYTES * blocks..]
    {
      hide Chain, LowWord, HighWord;
      pin := data;
      var inlen := |pin|;
      while inlen > BLOCK_BYTES
        invariant inlen == |pin| > 0 && Chained(all, blocks)
        invariant pin == all[BLOCK_BYTES * blocks..]
      {
        CompressNext(g, pin[..BLOCK_BYTES], all);
        DropBlock(all, blocks - 1, pin);
        pin, inlen := pin[BLOCK_BYTES..], inlen - BLOCK_BYTES;
      }
    }

    /** blake2b_update: compresses only when strictly more than a block is at hand. */
    method Update(g: Scratch, data: seq<byte>)
      requires Streaming() && Apart(g)
      modifies this`buflen, this`fed, this`blocks, h, t, buf, g.m, g.v
      ensures Streaming() && fed == old(fed) + data
    {
      hide Chain, LowWord, HighWord;
      var pin, inlen := data, |data|;
      ghost var all := fed + data;
      ChainPrefix(h0, fed, data, blocks);
      if inlen > 0 {
        var fill := BLOCK_BYTES - buflen;
        ghost var rest := buf[..buflen] + data;
        assert all[BLOCK_BYTES * blocks..] == rest;
        if inlen > fill {
          assert rest[..BLOCK_BYTES] == buf[..buflen] + pin[..fill];
          assert rest[BLOCK_BYTES..] == pin[fill..];
          CompressHeld(g, pin[..fill], all);
          DropBlock(all, blocks - 1, rest);
          pin := CompressWhole(g, pin[fill..], all);
        }
        HoldBack(pin, all);
      } else {
        assert all == fed;
      }
    }

    /** The loop of blake2b_init_param over the parameter words. */
    method XorParams(nn: nat, kk: nat)
      requires Valid() && 1 <= nn <= 64 && kk <= 64 && h[..] == IV
      modifies h
      ensures h[..] == InitialChaining(nn, kk)
    {
      hide InitialChaining, ParamBlock, WordAt, Xor;
      var p := ParamBlock(nn, kk);
      assert forall i :: 0 <= i < 8 ==> h[i] == h[..][i];
      ParamChaining(nn, kk);
      forall i | 0 <= i < 8 {
        h[i] := Xor(h[i], WordAt(p, i));
      }
      assert h[..] == InitialChaining(nn, kk);
    }

    /** blake2b_init0: a cleared state, with the chaining value IV. */
    method InitIv()
      requires Valid()
      modifies this`buflen, h, t, f, buf
      ensures h[..] == IV && t[0] == 0 && t[1] == 0 && f[0] == 0 && f[1] == 0 && buflen == 0
    {
      t[0], t[1], f[0], f[1] := 0, 0, 0, 0;
      CopyInto(buf, 0, Zeros(BLOCK_BYTES));
      buflen := 0;
      forall i | 0 <= i < 8 {
        h[i] := IV[i];
      }
    }

    /** blake2b_init_param: a cleared state, with the parameter block xored into IV. */
    method InitParam(nn: nat, kk: nat)
      requires Valid() && 1 <= nn <= 64 && kk <= 64
      modifies this, h, t, f, buf
      ensures Streaming() && fed == [] && outlen == nn && h0 == InitialChaining(nn, kk)
    {
      hide InitialChaining, F;
      InitIv();
      XorParams(nn, kk);
      outlen := nn;
      fed, blocks, h0 := [], 0, h[..];
    }

    /** blake2b_init_key: a padded key block is the first data. */
    method InitKey(g: Scratch, nn: nat, key: seq<byte>) returns (r: int)
      requires Valid() && Apart(g)
      modifies this, h, t, f, buf, g.m, g.v, g.block1
      ensures r == (if 1 <= nn <= 64 && 1 <= |key| <= 64 then 0 else -1)
      ensures r == 0 ==> Streaming() && outlen == nn
      ensures r == 0 ==> h0 == InitialChaining(nn, |key|) && fed == KeyBlock(key)
    {
      hide Streaming, InitialChaining;
      if nn == 0 || nn > 64 {
        return -1;
      }
      if |key| == 0 || |key| > 64 {
        return -1;
      }
      InitParam(nn, |key|);
      CopyInto(g.block1, 0, Zeros(BLOCK_BYTES));
      CopyInto(g.block1, 0, key);
      assert g.block1[..] == KeyBlock(key);
      Update(g, g.block1[..]);
      CopyInto(g.block1, 0, Zeros(BLOCK_BYTES));
      return 0;
    }

    /** blake2b_init: the unkeyed start. */
    method Init(nn: nat) returns (r: int)
      requires Valid()
      modifies this, h, t, f, buf
      ensures r == (if 1 <= nn <= 64 then 0 else -1)
      ensures r == 0 ==> Streaming() && outlen == nn && h0 == InitialChaining(nn, 0) && fed == []
    {
      if nn == 0 || nn > 64 {
        return -1;
      }
      InitParam(nn, 0);
      return 0;
    }

    /** The start of blake2b_final: the counter, the last flag and the padding. */
    method PadLast()
      requires Streaming()
      modifies t, f, buf
      ensures t[0] == LowWord(|fed|) && t[1] == HighWord(|fed|) && f[0] == ALL_ONES && f[1] == 0
      ensures LastBlock(|fed|) == blocks && buf[..] == Block(fed, blocks) && h[..] == Chain(h0, fed, blocks)
    {
      hide Chain, LowWord, HighWord;
      IncrementCounter(buflen, BLOCK_BYTES * blocks);
      f[0] := ALL_ONES;
      CopyInto(buf, buflen, Zeros(BLOCK_BYTES - buflen));
      HeldBackBlock(fed, blocks, buflen);
    }

    /** The end of blake2b_final: the digest goes out through the scratch, which is cleared. */
    method Emit(g: Scratch, out: array<byte>)
      requires Valid() && Apart(g) && outlen <= 64 && out.Length >= outlen && out != g.buffer
      modifies g.buffer, out
      ensures out[..] == LEWords(h[..])[..outlen] + old(out[outlen..])
    {
      hide LEWords;
      StoreWords(g);
      CopyInto(out, 0, g.buffer[..outlen]);
      CopyInto(g.buffer, 0, Zeros(64));
    }

    /** blake2b_final: pads, compresses the held-back block with the last flag, emits the digest once. */
    method Final(g: Scratch, out: array<byte>, len: nat) returns (r: int)
      requires Valid() && Apart(g) && (Streaming() || f[0] != 0)
      requires out != buf && out != g.buffer && out.Length >= len
      modifies h, t, f, buf, g.m, g.v, g.buffer, out
      ensures r == (if len < outlen || !old(Streaming()) then -1 else 0)
      ensures r == 0 ==> out[..] == Digest(h0, fed, outlen) + old(out[outlen..]) && f[0] != 0
      ensures r == -1 ==> out[..] == old(out[..])
    {
      hide Digest, Absorb, F, Chain, Block, BlockWords, LowWord, HighWord, LEWords;
      CopyInto(g.buffer, 0, Zeros(64));
      if len < outlen {
        return -1;
      }
      if f[0] != 0 {
        return -1;
      }
      PadLast();
      Compress(g, buf[..], |fed|, true);
      DigestUnfold(h0, fed, outlen);
      Emit(g, out);
      return 0;
    }

    /** The store64 loop of blake2b_final. */
    method StoreWords(g: Scratch)
      requires Valid() && Apart(g)
      modifies g.buffer
      ensures g.buffer[..] == LEWords(h[..])
    {
      hide LEWords, LE, Overwritten;
      ghost var s: seq<byte>, hs: seq<word> := g.buffer[..], h[..];
      var i := 0;
      NoWords(s);
      while i < 8
        invariant 0 <= i <= 8
        invariant g.buffer[..] == Overwritten(s, 0, LEWords(hs[..i]))
      {
        CopyInto(g.buffer, 8 * i, LE(h[i], 8));
        assert h[i] == hs[i];
        NextWord(hs, i);
        OverwrittenTwice(s, 0, LEWords(hs[..i]), LE(hs[i], 8));
        i := i + 1;
      }
      assert hs[..i] == hs;
      OverwrittenFront(s, LEWords(hs));
    }
  }

  lemma NoWords(s: seq<byte>)
    ensures Overwritten(s, 0, LEWords([])) == s
  {
  }

  lemma NextWord(h: seq<word>, i: nat)
    requires i < |h|
    ensures LEWords(h[..i + 1]) == LEWords(h[..i]) + LE(h[i], 8)
  {
    hide LE;
    assert h[..i + 1][..i] == h[..i];
  }

  /** The bytes of blake2b_param as the init functions fill them (section 2.5 of RFC 7693). */
  function ParamBlock(nn: nat, kk: nat): (p: seq<byte>)
    requires nn <= 64 && kk <= 64
    ensures |p| == 64
  {
    [nn, kk, 1, 1] + (LE(0, 4) + LE(0, 4) + LE(0, 4) + [0, 0] + Zeros(14) + Zeros(16) + Zeros(16))
  }

  lemma ParamWordValue(nn: nat, kk: nat, i: nat)
    requires nn <= 64 && kk <= 64 && i < 8
    ensures WordAt(ParamBlock(nn, kk), i) == if i == 0 then nn + 0x100 * kk + 0x01010000 else 0
  {
    hide Zeros, LE, FromLE;
    var p := ParamBlock(nn, kk);
    ZerosLE(4);
    assert p[4..] == Zeros(60);
    if i == 0 {
      assert p[8 * i..8 * i + 8] == [nn, kk, 1, 1] + Zeros(4);
      AppendLE([nn, kk, 1, 1], Zeros(4));
      FourBytesLE(nn, kk, 1, 1);
    } else {
      assert p[8 * i..8 * i + 8] == Zeros(8);
      ZerosLE(8);
    }
  }

  /** The first parameter word is the RFC's 0x01010000 ^ (kk << 8) ^ nn, the others are zero. */
  lemma ParamChaining(nn: nat, kk: nat)
    requires nn <= 64 && kk <= 64
    ensures forall i :: 0 <= i < 8 ==> Xor(IV[i], WordAt(ParamBlock(nn, kk), i)) == InitialChaining(nn, kk)[i]
  {
    hide Xor, ParamBlock, WordAt;
    forall i | 0 <= i < 8
      ensures Xor(IV[i], WordAt(ParamBlock(nn, kk), i)) == InitialChaining(nn, kk)[i]
    {
      ParamWordValue(nn, kk, i);
      XorZeroWord(IV[i]);
      ParamXor(IV[0], nn, kk);
    }
  }

  lemma ParamXor(iv: word, nn: nat, kk: nat)
    requires nn <= 64 && kk <= 64
    ensures Xor(Xor(Xor(iv, 0x01010000), kk * 0x100), nn) == Xor(iv, nn + 0x100 * kk + 0x01010000)
  {
    hide XorBits;
    assert Pow2(16) == 0x1_0000 && Pow2(8) == 0x100;
    XorAssociative(iv, 0x01010000, kk * 0x100);
    XorDisjoint(0x0101, kk * 0x100, 16);
    XorAssociative(iv, 0x01010000 + kk * 0x100, nn);
    XorDisjoint(0x010100 + kk, nn, 8);
  }

  /** What waits in the buffer, zero-padded, is the block the digest compresses last. */
  lemma HeldBackBlock(data: seq<byte>, n: nat, held: nat)
    requires |data| == BLOCK_BYTES * n + held && held <= BLOCK_BYTES
    requires data != [] ==> held > 0
    ensures LastBlock(|data|) == n
    ensures Block(data, n) == data[BLOCK_BYTES * n..] + Zeros(BLOCK_BYTES - held)
  {
  }

  lemma DropBlock(data: seq<byte>, n: nat, rest: seq<byte>)
    requires BLOCK_BYTES * (n + 1) <= |data| && rest == data[BLOCK_BYTES * n..]
    ensures data[BLOCK_BYTES * (n + 1)..] == rest[BLOCK_BYTES..]
  {
  }

  lemma DigestUnfold(h: Chaining, data: seq<byte>, nn: nat)
    requires nn <= 64
    ensures var k := LastBlock(|data|);
            Digest(h, data, nn) == LEWords(F(Chain(h, data, k), BlockWords(Block(data, k)), |data|, true))[..nn]
  {
    hide F, Chain, BlockWords;
  }

  function Flatten(pieces: seq<seq<byte>>): seq<byte> {
    if pieces == [] then [] else Flatten(pieces[..|pieces| - 1]) + pieces[|pieces| - 1]
  }

  /** Any cutting of a message into updates gives the RFC digest of the whole message. */
  method DigestOfPieces(key: seq<byte>, nn: nat, pieces: seq<seq<byte>>) returns (d: seq<byte>)
    requires 1 <= |key| <= 64 && 1 <= nn <= 64
    ensures d == Rfc7693.Blake2b(key, nn, Flatten(pieces))
  {
    hide KeyBlock, InitialChaining, Digest, State.Streaming;
    var g := new Scratch();
    var s := new State();
    var r := s.InitKey(g, nn, key);
    var i := 0;
    assert s.fed == KeyBlock(key) + Flatten(pieces[..0]);
    while i < |pieces|
      invariant 0 <= i <= |pieces|
      invariant s.Streaming() && s.Apart(g) && s.outlen == nn && s.h0 == InitialChaining(nn, |key|)
      invariant s.fed == KeyBlock(key) + Flatten(pieces[..i])
    {
      s.Update(g, pieces[i]);
      assert pieces[..i + 1][..i] == pieces[..i];
      i := i + 1;
    }
    assert pieces[..i] == pieces;
    var out := new byte[nn];
    r := s.Final(g, out, nn);
    d := out[..];
    assert d == Digest(s.h0, s.fed, nn);
  }

  /** The one-shot blake2b: a digest exactly when the lengths are in range. */
  method OneShot(g: Scratch, out: array<byte>, outlen: nat, data: seq<byte>, key: seq<byte>) returns (r: int)
    requires g.Valid() && out.Length >= outlen && out != g.buffer && out != g.block1
    modifies out, g.m, g.v, g.buffer, g.block1
    ensures r == (if 1 <= outlen <= 64 && |key| <= 64 then 0 else -1)
    ensures r == 0 ==> out[..] == Rfc7693.Blake2b(key, outlen, data) + old(out[outlen..])
    ensures r == -1 ==> out[..] == old(out[..])
  {
    hide InitialChaining, Digest, State.Streaming;
    if outlen == 0 || outlen > 64 {
      return -1;
    }
    if |key| > 64 {
      return -1;
    }
    var s := new State();
    var c;
    if |key| > 0 {
      c := s.InitKey(g, outlen, key);
    } else {
      c := s.Init(outlen);
    }
    s.Update(g, data);
    c := s.Final(g, out, outlen);
    assert out[..outlen] == Digest(s.h0, s.fed, outlen);
    return 0;
  }

  lemma CounterCarry(n: nat, inc: word)
    ensures LowWord(n + inc) == (LowWord(n) + inc) % TWO_64
    ensures HighWord(n + inc) == (HighWord(n) + (if LowWord(n + inc) < inc then 1 else 0)) % TWO_64
  {
    var q, r := n / TWO_64, n % TWO_64;
    CarrySplit(q, r, inc);
    CarryIn(q, 0);
    CarryIn(q, 1);
  }

  lemma CarrySplit(q: nat, r: word, inc: word)
    ensures var c := if r + inc >= TWO_64 then 1 else 0;
            var rest := r + inc - c * TWO_64;
            (q * TWO_64 + r + inc) / TWO_64 == q + c && (q * TWO_64 + r + inc) % TWO_64 == rest && (r + inc) % TWO_64 == rest
  {
    var c := if r + inc >= TWO_64 then 1 else 0;
    DivModUnique(q + c, r + inc - c * TWO_64, TWO_64);
    DivModUnique(c, r + inc - c * TWO_64, TWO_64);
  }

  lemma CarryIn(q: nat, c: nat)
    requires c < 2
    ensures (q % TWO_64 + c) % TWO_64 == (q + c) % TWO_64
  {
  }
}

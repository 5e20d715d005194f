/** Keyed BLAKE2b as RFC 7693 defines it, on values. */
module Rfc7693 {
  import opened Bytes
  import opened Word64

  type index = i: nat | i < 16
  type Row = s: seq<index> | |s| == 16
    witness [0, 0, 0, 0, 0, 0, 0, 0, 0, 0, 0, 0, 0, 0, 0, 0]

  type Vector = s: seq<word> | |s| == 16
    witness [0, 0, 0, 0, 0, 0, 0, 0, 0, 0, 0, 0, 0, 0, 0, 0]
  type Chaining = s: seq<word> | |s| == 8
    witness [0, 0, 0, 0, 0, 0, 0, 0]

  const BLOCK_BYTES: nat := 128

  /** Section 2.6: initialisation vector. */
  const IV: Chaining := [
    0x6a09e667f3bcc908, 0xbb67ae8584caa73b, 0x3c6ef372fe94f82b, 0xa54ff53a5f1d36f1,
    0x510e527fade682d1, 0x9b05688c2b3e6c1f, 0x1f83d9abfb41bd6b, 0x5be0cd19137e2179]

  const ALL_ONES: word := 0xffff_ffff_ffff_ffff

  /** Section 2.7: the ten rows of the message schedule. */
  const SIGMA_0: Row := [0, 1, 2, 3, 4, 5, 6, 7, 8, 9, 10, 11, 12, 13, 14, 15]
  const SIGMA_1: Row := [14, 10, 4, 8, 9, 15, 13, 6, 1, 12, 0, 2, 11, 7, 5, 3]
  const SIGMA_2: Row := [11, 8, 12, 0, 5, 2, 15, 13, 10, 14, 3, 6, 7, 1, 9, 4]
  const SIGMA_3: Row := [7, 9, 3, 1, 13, 12, 11, 14, 2, 6, 5, 10, 4, 0, 15, 8]
  const SIGMA_4: Row := [9, 0, 5, 7, 2, 4, 10, 15, 14, 1, 11, 12, 6, 8, 3, 13]
  const SIGMA_5: Row := [2, 12, 6, 10, 0, 11, 8, 3, 4, 13, 7, 5, 15, 14, 1, 9]
  const SIGMA_6: Row := [12, 5, 1, 15, 14, 13, 4, 10, 0, 7, 6, 3, 9, 2, 8, 11]
  const SIGMA_7: Row := [13, 11, 7, 14, 12, 1, 3, 9, 5, 0, 15, 4, 8, 6, 2, 10]
  const SIGMA_8: Row := [6, 15, 14, 9, 11, 3, 0, 8, 12, 2, 13, 7, 1, 4, 10, 5]
  const SIGMA_9: Row := [10, 2, 8, 4, 7, 6, 1, 5, 15, 11, 9, 14, 3, 12, 13, 0]

  function Sigma(i: nat): (row: Row)
    requires i < 10
  {
    match i
    case 0 => SIGMA_0
    case 1 => SIGMA_1
    case 2 => SIGMA_2
    case 3 => SIGMA_3
    case 4 => SIGMA_4
    case 5 => SIGMA_5
    case 6 => SIGMA_6
    case 7 => SIGMA_7
    case 8 => SIGMA_8
    case _ => SIGMA_9
  }

  /** The four words G works on. */
  datatype Quad = Quad(a: word, b: word, c: word, d: word)

  /** Section 3.1: one half of G, with rotation constants r and s. */
  function HalfG(q: Quad, x: word, r: nat, s: nat): Quad
    requires 0 < r < 64 && 0 < s < 64
  {
    var a := Add(Add(q.a, q.b), x);
    var d := RotR(Xor(q.d, a), r);
    var c := Add(q.c, d);
    var b := RotR(Xor(q.b, c), s);
    Quad(a, b, c, d)
  }

  function G(q: Quad, x: word, y: word): Quad {
    HalfG(HalfG(q, x, 32, 24), y, 16, 63)
  }

  /** Four distinct positions of the working vector. */
  datatype Lane = Lane(a: nat, b: nat, c: nat, d: nat) {
    predicate Ok() {
      a < 16 && b < 16 && c < 16 && d < 16 && a != b && a != c && a != d && b != c && b != d && c != d
    }
  }

  function Get(v: Vector, l: Lane): Quad
    requires l.Ok()
  {
    Quad(v[l.a], v[l.b], v[l.c], v[l.d])
  }

  function Put(v: Vector, l: Lane, q: Quad): Vector
    requires l.Ok()
  {
    v[l.a := q.a][l.b := q.b][l.c := q.c][l.d := q.d]
  }

  /** The i-th mixing step of a round: columns for i < 4, diagonals after. */
  function LaneOf(i: nat): (l: Lane)
    requires i < 8
    ensures l.Ok()
  {
    if i < 4 then Lane(i, i + 4, i + 8, i + 12)
    else Lane(i - 4, 4 + (i - 3) % 4, 8 + (i - 2) % 4, 12 + (i - 1) % 4)
  }

  function MixStep(v: Vector, m: Vector, row: Row, i: nat): Vector
    requires i < 8
  {
    Put(v, LaneOf(i), G(Get(v, LaneOf(i)), m[row[2 * i]], m[row[2 * i + 1]]))
  }

  /** The first n mixing steps of one round. */
  function Mix(v: Vector, m: Vector, row: Row, n: nat): Vector
    requires n <= 8
    decreases n
  {
    if n == 0 then v else MixStep(Mix(v, m, row, n - 1), m, row, n - 1)
  }

  /** Section 3.2: the first n rounds; round i uses schedule row i mod 10. */
  function Rounds(v: Vector, m: Vector, n: nat): Vector
    decreases n
  {
    if n == 0 then v else Mix(Rounds(v, m, n - 1), m, Sigma((n - 1) % 10), 8)
  }

  function LowWord(t: nat): word {
    t % TWO_64
  }

  function HighWord(t: nat): word {
    t / TWO_64 % TWO_64
  }

  function StartVector(h: Chaining, t: nat, last: bool): Vector {
    hide XorBits;
    h + [IV[0], IV[1], IV[2], IV[3], Xor(IV[4], LowWord(t)), Xor(IV[5], HighWord(t)),
         Xor(IV[6], if last then ALL_ONES else 0), IV[7]]
  }

  function FoldVector(h: Chaining, v: Vector): Chaining {
    seq(8, i requires 0 <= i < 8 => Xor(Xor(h[i], v[i]), v[i + 8]))
  }

  /** Section 3.2: the compression function F with byte counter t. */
  function F(h: Chaining, m: Vector, t: nat, last: bool): Chaining {
    FoldVector(h, Rounds(StartVector(h, t, last), m, 12))
  }

  /** Little-endian word i of a byte string (section 2.4). */
  function WordAt(block: seq<byte>, i: nat): word
    requires 8 * i + 8 <= |block|
  {
    BoundLE(block[8 * i..8 * i + 8]);
    WidthBounds();
    FromLE(block[8 * i..8 * i + 8])
  }

  function BlockWords(block: seq<byte>): Vector
    requires |block| == BLOCK_BYTES
  {
    seq(16, i requires 0 <= i < 16 => WordAt(block, i))
  }

  /** Block i of data, zero-padded at the end of data (section 3.3). */
  function Block(data: seq<byte>, i: nat): (b: seq<byte>)
    requires BLOCK_BYTES * i <= |data|
    ensures |b| == BLOCK_BYTES
  {
    var rest := data[BLOCK_BYTES * i..];
    if |rest| >= BLOCK_BYTES then rest[..BLOCK_BYTES] else rest + Zeros(BLOCK_BYTES - |rest|)
  }

  /** Chaining value after the first n blocks of data, none of them final. */
  function Chain(h: Chaining, data: seq<byte>, n: nat): Chaining
    requires BLOCK_BYTES * n <= |data|
    decreases n
  {
    if n == 0 then h
    else F(Chain(h, data, n - 1), BlockWords(Block(data, n - 1)), BLOCK_BYTES * n, false)
  }

  /** Index of the block that is compressed last; empty data still has block 0. */
  function LastBlock(len: nat): (k: nat)
    ensures BLOCK_BYTES * k <= len <= BLOCK_BYTES * (k + 1)
    ensures k > 0 ==> BLOCK_BYTES * k < len
  {
    if len == 0 then 0 else (len - 1) / BLOCK_BYTES
  }

  function Absorb(h: Chaining, data: seq<byte>): Chaining {
    var k := LastBlock(|data|);
    F(Chain(h, data, k), BlockWords(Block(data, k)), |data|, true)
  }

  /** Section 3.3: h[0] ^ 0x01010000 ^ (kk << 8) ^ nn. */
  function InitialChaining(nn: nat, kk: nat): Chaining
    requires nn <= 64 && kk <= 64
  {
    IV[0 := Xor(Xor(Xor(IV[0], 0x01010000), kk * 0x100), nn)]
  }

  function LEWords(h: seq<word>): (s: seq<byte>)
    ensures |s| == 8 * |h|
  {
    if h == [] then [] else LEWords(h[..|h| - 1]) + LE(h[|h| - 1], 8)
  }

  /** The padded key block, absent when there is no key. */
  function KeyBlock(key: seq<byte>): seq<byte>
    requires |key| <= 64
  {
    if key == [] then [] else key + Zeros(BLOCK_BYTES - |key|)
  }

  /** The first nn bytes of the final chaining value. */
  function Digest(h: Chaining, data: seq<byte>, nn: nat): (d: seq<byte>)
    requires nn <= 64
    ensures |d| == nn
  {
    hide Absorb;
    LEWords(Absorb(h, data))[..nn]
  }

  /** Section 3.3: BLAKE2b with nn digest bytes. */
  function Blake2b(key: seq<byte>, nn: nat, msg: seq<byte>): (d: seq<byte>)
    requires |key| <= 64 && 1 <= nn <= 64
    ensures |d| == nn
  {
    Digest(InitialChaining(nn, |key|), KeyBlock(key) + msg, nn)
  }
}

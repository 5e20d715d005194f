/** The constants and the layout of the compression function, said without using the model's own. */
module Rfc7693Facts {
  import opened Bytes
  import opened Word64
  import opened Rfc7693
  import Blake2b

  /** The primes the initialisation vector is made from, and the whole parts of their square roots. */
  const PRIMES: seq<nat> := [2, 3, 5, 7, 11, 13, 17, 19]
  const ROOTS: seq<nat> := [1, 1, 2, 2, 3, 3, 4, 4]

  /** Section 2.6: word i is the first 64 bits of the fraction of the square root of prime i. */
  lemma SquareRoots(i: nat)
    requires i < 8
    ensures var r := ROOTS[i] * TWO_64 + IV[i];
            r * r <= PRIMES[i] * TWO_64 * TWO_64 < (r + 1) * (r + 1)
  {
  }

  /** Section 2.7: a row of the schedule, a hexadecimal digit an entry. */
  predicate Entries(row: Row, text: string) {
    |text| == 16 &&
    forall j :: 0 <= j < 16 ==>
      row[j] == if '0' <= text[j] <= '9' then text[j] as int - '0' as int else text[j] as int - 'a' as int + 10
  }

  lemma FirstRows()
    ensures Entries(SIGMA_0, "0123456789abcdef")
    ensures Entries(SIGMA_1, "ea489fd61c02b753")
  {
  }

  lemma NextRows()
    ensures Entries(SIGMA_2, "b8c052fdae367194")
    ensures Entries(SIGMA_3, "7931dcbe265a40f8")
  {
  }

  lemma MiddleRows()
    ensures Entries(SIGMA_4, "905724afe1bc683d")
    ensures Entries(SIGMA_5, "2c6a0b834d75fe19")
  {
  }

  lemma LaterRows()
    ensures Entries(SIGMA_6, "c51fed4a0763928b")
    ensures Entries(SIGMA_7, "db7ec13950f4862a")
  {
  }

  lemma LastRows()
    ensures Entries(SIGMA_8, "6fe9b308c2d714a5")
    ensures Entries(SIGMA_9, "a2847615fb9e3cd0")
  {
  }

  /** Section 3.1, bit by bit: two additions and two rotations, by r and by s. */
  predicate MixesHalf(q: Quad, x: word, r: nat, s: nat, p: Quad) {
    && p.a == (q.a + q.b + x) % TWO_64
    && (forall i: nat :: i < 64 ==> Bit(p.d, i) == (Bit(q.d, (i + r) % 64) + Bit(p.a, (i + r) % 64)) % 2)
    && p.c == (q.c + p.d) % TWO_64
    && (forall i: nat :: i < 64 ==> Bit(p.b, i) == (Bit(q.b, (i + s) % 64) + Bit(p.c, (i + s) % 64)) % 2)
  }

  lemma AddTwice(a: word, b: word, x: word)
    ensures Add(Add(a, b), x) == (a + b + x) % TWO_64
  {
  }

  lemma RotatedXorBit(a: word, b: word, c: nat, i: nat)
    requires 0 < c < 64 && i < 64
    ensures Bit(RotR(Xor(a, b), c), i) == (Bit(a, (i + c) % 64) + Bit(b, (i + c) % 64)) % 2
  {
    hide XorBits, RotR, High;
    RotRBits(Xor(a, b), c, i);
    XorBitAt(a, b, (i + c) % 64);
  }

  lemma HalfGMixes(q: Quad, x: word, r: nat, s: nat)
    requires 0 < r < 64 && 0 < s < 64
    ensures MixesHalf(q, x, r, s, HalfG(q, x, r, s))
  {
    hide RotR, Xor, Bit, Add;
    var p := HalfG(q, x, r, s);
    AddTwice(q.a, q.b, x);
    AddOnce(q.c, p.d);
    forall i: nat | i < 64
      ensures Bit(p.d, i) == (Bit(q.d, (i + r) % 64) + Bit(p.a, (i + r) % 64)) % 2
      ensures Bit(p.b, i) == (Bit(q.b, (i + s) % 64) + Bit(p.c, (i + s) % 64)) % 2
    {
      RotatedXorBit(q.d, p.a, r, i);
      RotatedXorBit(q.b, p.c, s, i);
    }
  }

  lemma AddOnce(a: word, b: word)
    ensures Add(a, b) == (a + b) % TWO_64
  {
  }

  /** G with the RFC's four rotations: 32 and 24, then 16 and 63. */
  lemma GMixes(q: Quad, x: word, y: word) returns (h: Quad)
    ensures MixesHalf(q, x, 32, 24, h) && MixesHalf(h, y, 16, 63, G(q, x, y))
  {
    hide MixesHalf, HalfG;
    h := HalfG(q, x, 32, 24);
    HalfGMixes(q, x, 32, 24);
    HalfGMixes(h, y, 16, 63);
  }

  /** Words that agree bit by bit are equal, so the bits determine G. */
  lemma {:induction false} BitsDetermine(a: nat, b: nat, n: nat)
    requires a < Pow2(n) && b < Pow2(n) && forall i: nat :: i < n ==> Bit(a, i) == Bit(b, i)
    ensures a == b
    decreases n
  {
    if n == 0 {
    } else {
      assert Bit(a, 0) == a % 2 && Bit(b, 0) == b % 2;
      forall i: nat | i < n - 1 ensures Bit(a / 2, i) == Bit(b / 2, i) {
        assert Bit(a, i + 1) == Bit(a / 2, i) && Bit(b, i + 1) == Bit(b / 2, i);
      }
      BitsDetermine(a / 2, b / 2, n - 1);
    }
  }

  // ----- section 3.2

  /** One step on the words a, b, c and d of the vector. */
  function Mixed(v: Vector, a: nat, b: nat, c: nat, d: nat, x: word, y: word): Vector
    requires Lane(a, b, c, d).Ok()
  {
    var l := Lane(a, b, c, d);
    Put(v, l, G(Get(v, l), x, y))
  }

  /** The eight steps of a round, columns and then diagonals, with their message words. */
  function Round(v: Vector, m: Vector, row: Row): Vector {
    hide G, Put, Get, Mixed;
    var v1 := Mixed(v, 0, 4, 8, 12, m[row[0]], m[row[1]]);
    var v2 := Mixed(v1, 1, 5, 9, 13, m[row[2]], m[row[3]]);
    var v3 := Mixed(v2, 2, 6, 10, 14, m[row[4]], m[row[5]]);
    var v4 := Mixed(v3, 3, 7, 11, 15, m[row[6]], m[row[7]]);
    var v5 := Mixed(v4, 0, 5, 10, 15, m[row[8]], m[row[9]]);
    var v6 := Mixed(v5, 1, 6, 11, 12, m[row[10]], m[row[11]]);
    var v7 := Mixed(v6, 2, 7, 8, 13, m[row[12]], m[row[13]]);
    Mixed(v7, 3, 4, 9, 14, m[row[14]], m[row[15]])
  }

  lemma RoundLayout(v: Vector, m: Vector, row: Row)
    ensures Mix(v, m, row, 8) == Round(v, m, row)
  {
    hide G, Put, Get;
    Lanes();
  }

  lemma Lanes()
    ensures LaneOf(0) == Lane(0, 4, 8, 12) && LaneOf(1) == Lane(1, 5, 9, 13) && LaneOf(2) == Lane(2, 6, 10, 14)
    ensures LaneOf(3) == Lane(3, 7, 11, 15) && LaneOf(4) == Lane(0, 5, 10, 15) && LaneOf(5) == Lane(1, 6, 11, 12)
    ensures LaneOf(6) == Lane(2, 7, 8, 13) && LaneOf(7) == Lane(3, 4, 9, 14)
  {
  }

  lemma {:induction false} OnesBit(n: nat, i: nat)
    ensures Pow2(n) >= 1 && Bit(Pow2(n) - 1, i) == if i < n then 1 else 0
    decreases n
  {
    if n == 0 {
      ZeroBit(i);
    } else {
      assert Pow2(n) - 1 == 2 * (Pow2(n - 1) - 1) + 1;
      Halve(Pow2(n - 1) - 1, 1);
      if i > 0 {
        OnesBit(n - 1, i - 1);
      }
    }
  }

  lemma {:induction false} ZeroBit(i: nat)
    ensures Bit(0, i) == 0
  {
    if i == 0 {
    } else {
      ZeroBit(i - 1);
    }
  }

  /** The starting vector: chaining value, IV, the byte counter in words 12 and 13, word 14 inverted for the last block. */
  lemma StartLayout(h: Chaining, t: nat, last: bool, i: nat)
    requires i < 64
    ensures var v := StartVector(h, t, last);
            && v[..8] == h && v[8..12] == IV[..4] && v[15] == IV[7]
            && Bit(v[12], i) == (Bit(IV[4], i) + Bit(t % TWO_64, i)) % 2
            && Bit(v[13], i) == (Bit(IV[5], i) + Bit(t / TWO_64 % TWO_64, i)) % 2
            && Bit(v[14], i) == if last then 1 - Bit(IV[6], i) else Bit(IV[6], i)
  {
    hide XorBits, High, Pow2;
    XorBitAt(IV[4], LowWord(t), i);
    XorBitAt(IV[5], HighWord(t), i);
    XorBitAt(IV[6], if last then ALL_ONES else 0, i);
    Pow2Word();
    OnesBit(64, i);
    ZeroBit(i);
  }

  function AfterRounds(h: Chaining, m: Vector, t: nat, last: bool): Vector {
    hide Rounds, StartVector;
    Rounds(StartVector(h, t, last), m, 12)
  }

  /** The result: old chaining value and both halves of the vector, bit by bit. */
  lemma FoldLayout(h: Chaining, v: Vector, k: nat, i: nat)
    requires k < 8
    ensures Bit(FoldVector(h, v)[k], i) == (Bit(h[k], i) + Bit(v[k], i) + Bit(v[k + 8], i)) % 2
  {
    hide XorBits, High;
    XorBitAt(h[k], v[k], i);
    XorBitAt(Xor(h[k], v[k]), v[k + 8], i);
  }

  /** There are twelve rounds. */
  lemma TwelveRounds(h: Chaining, m: Vector, t: nat, last: bool)
    ensures F(h, m, t, last) == FoldVector(h, AfterRounds(h, m, t, last))
  {
    hide Rounds, StartVector, FoldVector;
  }

  /** Round n takes schedule row n modulo 10. */
  lemma NextRound(v: Vector, m: Vector, n: nat)
    ensures Rounds(v, m, 0) == v && Rounds(v, m, n + 1) == Round(Rounds(v, m, n), m, Sigma(n % 10))
  {
    hide Mix, Round;
    RoundLayout(Rounds(v, m, n), m, Sigma(n % 10));
  }

  // ----- section 3.3

  lemma {:induction false} EncodeLE(s: seq<byte>)
    ensures LE(FromLE(s), |s|) == s
  {
    if s == [] {
    } else {
      EncodeLE(s[1..]);
    }
  }

  /** The message words are the block's bytes, little-endian. */
  lemma WordBytes(block: seq<byte>, i: nat)
    requires |block| == 128 && i < 16
    ensures LE(BlockWords(block)[i], 8) == block[8 * i..8 * i + 8]
  {
    hide FromLE, LE;
    EncodeLE(block[8 * i..8 * i + 8]);
  }

  /** Block n chained into c, with the number of bytes so far. */
  function Next(c: Chaining, data: seq<byte>, n: nat): Chaining
    requires 128 * (n + 1) <= |data|
  {
    hide F, BlockWords;
    F(c, BlockWords(data[128 * n..128 * (n + 1)]), 128 * (n + 1), false)
  }

  /** Whole blocks are chained with the number of bytes so far. */
  lemma NextBlock(h: Chaining, data: seq<byte>, n: nat)
    requires 128 * (n + 1) <= |data|
    ensures Chain(h, data, 0) == h
    ensures Chain(h, data, n + 1) == Next(Chain(h, data, n), data, n)
  {
    hide F, BlockWords;
    assert Block(data, n) == data[128 * n..128 * (n + 1)];
  }

  /** The last block, full or filled up with zeros, is compressed with the total length; there is always one. */
  lemma FinalBlock(h: Chaining, data: seq<byte>, n: nat)
    requires 128 * n <= |data| <= 128 * (n + 1) && (n > 0 ==> 128 * n < |data|)
    ensures Absorb(h, data)
         == F(Chain(h, data, n), BlockWords(data[128 * n..] + Zeros(128 * (n + 1) - |data|)), |data|, true)
  {
    hide F, BlockWords, Chain;
    assert LastBlock(|data|) == n;
    assert Block(data, n) == data[128 * n..] + Zeros(128 * (n + 1) - |data|);
  }

  /** The digest is the chaining value's words, little-endian, and cut off. */
  lemma {:induction false} DigestWords(h: seq<word>, k: nat)
    requires k < |h|
    ensures LEWords(h)[8 * k..8 * k + 8] == LE(h[k], 8)
  {
    hide LE;
    var n := |h| - 1;
    if k == n {
    } else {
      DigestWords(h[..n], k);
      assert LEWords(h)[8 * k..8 * k + 8] == LEWords(h[..n])[8 * k..8 * k + 8];
    }
  }

  /** A key takes the first block, filled up with zeros, and the chaining value starts from lengths and IV. */
  lemma KeyedStart(key: seq<byte>, nn: nat, msg: seq<byte>, i: nat)
    requires 1 <= |key| <= 64 && 1 <= nn <= 64
    ensures |KeyBlock(key)| == 128 && KeyBlock(key)[..|key|] == key && KeyBlock(key)[|key|..] == Zeros(128 - |key|)
    ensures var h := InitialChaining(nn, |key|);
            h[1..] == IV[1..] && Bit(h[0], i) == (Bit(IV[0], i) + Bit(0x01010000 + 0x100 * |key| + nn, i)) % 2
    ensures Rfc7693.Blake2b(key, nn, msg)
         == LEWords(Absorb(InitialChaining(nn, |key|), KeyBlock(key) + msg))[..nn]
  {
    hide XorBits, High, Absorb, LEWords, KeyBlock;
    KeyFills(key);
    Blake2b.ParamXor(IV[0], nn, |key|);
    XorBitAt(IV[0], nn + 0x100 * |key| + 0x01010000, i);
  }

  lemma KeyFills(key: seq<byte>)
    requires 1 <= |key| <= 64
    ensures |KeyBlock(key)| == 128 && KeyBlock(key)[..|key|] == key && KeyBlock(key)[|key|..] == Zeros(128 - |key|)
  {
  }
}

/** The twelve rounds are a bijection on working vectors, for every message block. */
module MixingBijection {
  import opened Word64
  import opened Rfc7693

  /** Undoes HalfG by running its four assignments backwards. */
  function UnHalfG(q: Quad, x: word, r: nat, s: nat): Quad
    requires 0 < r < 64 && 0 < s < 64
  {
    var b := Xor(RotR(q.b, 64 - s), q.c);
    var c := Sub(q.c, q.d);
    var d := Xor(RotR(q.d, 64 - r), q.a);
    var a := Sub(Sub(q.a, x), b);
    Quad(a, b, c, d)
  }

  function UnG(q: Quad, x: word, y: word): Quad {
    UnHalfG(UnHalfG(q, y, 16, 63), x, 32, 24)
  }

  lemma HalfGForwardBack(q: Quad, x: word, r: nat, s: nat)
    requires 0 < r < 64 && 0 < s < 64
    ensures UnHalfG(HalfG(q, x, r, s), x, r, s) == q
  {
    hide RotR, Add, Sub, XorBits;
    var p := HalfG(q, x, r, s);
    RotInverse(Xor(q.b, p.c), s);
    XorUndo(q.b, p.c);
    AddInverse(q.c, p.d);
    RotInverse(Xor(q.d, p.a), r);
    XorUndo(q.d, p.a);
    AddInverse(Add(q.a, q.b), x);
    AddInverse(q.a, q.b);
  }

  lemma HalfGBackForward(q: Quad, x: word, r: nat, s: nat)
    requires 0 < r < 64 && 0 < s < 64
    ensures HalfG(UnHalfG(q, x, r, s), x, r, s) == q
  {
    hide RotR, Add, Sub, XorBits;
    var u := UnHalfG(q, x, r, s);
    AddInverse(Sub(q.a, x), u.b);
    AddInverse(q.a, x);
    XorUndo(RotR(q.d, 64 - r), q.a);
    RotInverse(q.d, 64 - r);
    AddInverse(q.c, q.d);
    XorUndo(RotR(q.b, 64 - s), q.c);
    RotInverse(q.b, 64 - s);
  }

  lemma GInverse(q: Quad, x: word, y: word)
    ensures UnG(G(q, x, y), x, y) == q
    ensures G(UnG(q, x, y), x, y) == q
  {
    hide HalfG, UnHalfG;
    HalfGForwardBack(q, x, 32, 24);
    HalfGForwardBack(HalfG(q, x, 32, 24), y, 16, 63);
    HalfGBackForward(q, y, 16, 63);
    HalfGBackForward(UnHalfG(q, y, 16, 63), x, 32, 24);
  }

  function UnMixStep(v: Vector, m: Vector, row: Row, i: nat): Vector
    requires i < 8
  {
    Put(v, LaneOf(i), UnG(Get(v, LaneOf(i)), m[row[2 * i]], m[row[2 * i + 1]]))
  }

  lemma GetPut(v: Vector, l: Lane, q: Quad)
    requires l.Ok()
    ensures Get(Put(v, l, q), l) == q
    ensures Put(Put(v, l, q), l, Get(v, l)) == v
  {
  }

  lemma MixStepInverse(v: Vector, m: Vector, row: Row, i: nat)
    requires i < 8
    ensures UnMixStep(MixStep(v, m, row, i), m, row, i) == v
    ensures MixStep(UnMixStep(v, m, row, i), m, row, i) == v
  {
    var l, x, y := LaneOf(i), m[row[2 * i]], m[row[2 * i + 1]];
    GInverse(Get(v, l), x, y);
    GetPut(v, l, G(Get(v, l), x, y));
    GetPut(v, l, UnG(Get(v, l), x, y));
  }

  function UnMix(v: Vector, m: Vector, row: Row, n: nat): Vector
    requires n <= 8
    decreases n
  {
    if n == 0 then v else UnMix(UnMixStep(v, m, row, n - 1), m, row, n - 1)
  }

  lemma {:induction false} MixInverse(v: Vector, m: Vector, row: Row, n: nat)
    requires n <= 8
    ensures UnMix(Mix(v, m, row, n), m, row, n) == v
    ensures Mix(UnMix(v, m, row, n), m, row, n) == v
    decreases n
  {
    if n == 0 {
    } else {
      MixStepInverse(Mix(v, m, row, n - 1), m, row, n - 1);
      MixInverse(v, m, row, n - 1);
      MixStepInverse(v, m, row, n - 1);
      MixInverse(UnMixStep(v, m, row, n - 1), m, row, n - 1);
    }
  }

  function UnRounds(v: Vector, m: Vector, n: nat): Vector
    decreases n
  {
    if n == 0 then v else UnRounds(UnMix(v, m, Sigma((n - 1) % 10), 8), m, n - 1)
  }

  /** Any number of rounds, the twelve of F included, has a two-sided inverse. */
  lemma {:induction false} RoundsBijective(v: Vector, m: Vector, n: nat)
    ensures UnRounds(Rounds(v, m, n), m, n) == v
    ensures Rounds(UnRounds(v, m, n), m, n) == v
    decreases n
  {
    hide Mix, UnMix, Sigma;
    if n == 0 {
    } else {
      var row := Sigma((n - 1) % 10);
      MixInverse(Rounds(v, m, n - 1), m, row, 8);
      RoundsBijective(v, m, n - 1);
      MixInverse(v, m, row, 8);
      RoundsBijective(UnMix(v, m, row, 8), m, n - 1);
    }
  }
}

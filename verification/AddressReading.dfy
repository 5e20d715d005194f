/** What a reader finds in an address: the kind of script and its key, from the characters alone. */
module AddressReading {
  import opened Bytes
  import opened Word64
  import opened Transaction
  import opened Regroup
  import opened Checksum
  import opened Cashaddr
  import opened Address

  /** The bits of the characters behind "kaspa:". */
  function ReadBits(text: seq<byte>): bits
    requires |text| >= 6
  {
    Unpack(seq(|text| - 6, i requires 0 <= i < |text| - 6 => SymbolOf(text[6 + i])), 5)
  }

  lemma ReadSymbols(xs: seq<byte>)
    requires AreSymbols(xs)
    ensures seq(|xs|, i requires 0 <= i < |xs| => SymbolOf(Chars(xs)[i])) == xs
  {
    hide SymbolOf;
    forall i | 0 <= i < |xs| ensures SymbolOf(Chars(xs)[i]) == xs[i] {
      SymbolRoundTrip(xs[i]);
    }
  }

  /** The bits of an address are those of the version byte and of the compressed key, and more. */
  lemma AddressBits(key: PublicKey, t: AddressType)
    ensures var b, c := ReadBits(AddressText(key, t)), Compressed(key, t);
            8 + 8 * |c| <= |b| && b[..8 + 8 * |c|] == BitsOf(Version(t), 8) + Unpack(c, 8)
  {
    hide Payload, ChecksumSymbols, Compressed, Unpack, BitsOf, Chars, SymbolOf;
    var v, c := Version(t), Compressed(key, t);
    var p := Payload(v, c);
    var word := Codeword(v, c);
    EncodedSize(key, t);
    ReadSymbols(word);
    assert seq(|word|, i requires 0 <= i < |word| => SymbolOf(AddressText(key, t)[6 + i])) == word;
    UnpackAppend(p, ChecksumSymbols(p), 5);
    PayloadBits(v, c);
    UnpackAppend([v], c, 8);
    UnpackOne(v, 8);
  }

  lemma PayloadBits(v: byte, c: seq<byte>)
    ensures Unpack([v] + c, 8) <= Unpack(Payload(v, c), 5)
  {
    hide Unpack, Regrouped;
    SymbolsOfBytes([v] + c);
  }

  /** By script form: version 0 and the key, 1 and the key with its parity byte, or 8 and the script hash. */
  lemma AddressReads(s: ScriptBuffer)
    requires IsAccepted(s)
    ensures var b := ReadBits(ScriptAddress(s));
            if s[0] == 0x20 then 264 <= |b| && b[..264] == BitsOf(0, 8) + Unpack(s[1..33], 8)
            else if s[0] == 0x21 then 272 <= |b| && b[..272] == BitsOf(1, 8) + (BitsOf(2 + s[1] % 2, 8) + Unpack(s[2..34], 8))
            else 264 <= |b| && b[..264] == BitsOf(8, 8) + Unpack(s[2..34], 8)
  {
    hide ReadBits, AddressText, Unpack, BitsOf;
    var Key(k, t) := KeyOfScript(s);
    AddressBits(k, t);
    var c := Compressed(k, t);
    if s[0] == 0x21 {
      EcdsaKey(s);
      UnpackAppend([2 + s[1] % 2], s[2..34], 8);
      UnpackOne(2 + s[1] % 2, 8);
    } else if s[0] == 0x20 {
      assert c == s[1..33];
    } else {
      assert c == s[2..34];
    }
  }

  /** Symbol k is five bits of the row. */
  lemma SymbolBits(xs: seq<byte>, k: nat)
    requires AreSymbols(xs) && k < |xs|
    ensures Value(Unpack(xs, 5)[5 * k..5 * k + 5]) == xs[k]
  {
    hide Unpack, BitsOf, Value;
    var before, after := xs[..k], xs[k + 1..];
    assert xs == before + ([xs[k]] + after);
    UnpackAppend(before, [xs[k]] + after, 5);
    UnpackAppend([xs[k]], after, 5);
    UnpackOne(xs[k], 5);
    assert Unpack(xs, 5)[5 * k..5 * k + 5] == BitsOf(xs[k], 5);
    ValueOfBits(xs[k], 5);
    assert Pow2(5) == 32;
    LowOfSmall(xs[k], 5);
  }

  /** A character of the address and its five bits. */
  lemma CharacterBits(key: PublicKey, t: AddressType, k: nat)
    requires k < AddressLen(t) - 6
    ensures var a := AddressText(key, t);
            var v := Value(ReadBits(a)[5 * k..5 * k + 5]); v < 32 && a[6 + k] == CHARSET[v]
  {
    hide Payload, ChecksumSymbols, Compressed, Unpack, BitsOf, SymbolOf, Value;
    var word := Codeword(Version(t), Compressed(key, t));
    EncodedSize(key, t);
    ReadSymbols(word);
    assert seq(|word|, i requires 0 <= i < |word| => SymbolOf(AddressText(key, t)[6 + i])) == word;
    SymbolBits(word, k);
  }

  lemma VersionBits()
    ensures BitsOf(0, 8) == [false, false, false, false, false, false, false, false]
    ensures BitsOf(1, 8) == [false, false, false, false, false, false, false, true]
    ensures BitsOf(8, 8) == [false, false, false, false, true, false, false, false]
  {
  }

  lemma ValueStep(b: bits, x: bool)
    ensures Value(b + [x]) == 2 * Value(b) + (if x then 1 else 0)
  {
    assert (b + [x])[..|b|] == b;
  }

  lemma ValueFive(p: bool, q: bool, r: bool, s: bool, t: bool)
    ensures Value([p, q, r, s, t])
         == (if p then 16 else 0) + (if q then 8 else 0) + (if r then 4 else 0) + (if s then 2 else 0) + (if t then 1 else 0)
  {
    hide Value;
    NoValue();
    ValueStep([], p);
    assert [] + [p] == [p];
    ValueStep([p], q);
    assert [p] + [q] == [p, q];
    ValueStep([p, q], r);
    assert [p, q] + [r] == [p, q, r];
    ValueStep([p, q, r], s);
    assert [p, q, r] + [s] == [p, q, r, s];
    ValueStep([p, q, r, s], t);
    assert [p, q, r, s] + [t] == [p, q, r, s, t];
  }

  lemma NoValue()
    ensures Value([]) == 0
  {
  }

  lemma ParityBits(p: byte)
    requires p == 2 || p == 3
    ensures BitsOf(p, 8)[..2] == [false, false]
  {
    if p == 2 {
      assert BitsOf(2, 8)[..2] == [false, false];
    } else {
      assert BitsOf(3, 8)[..2] == [false, false];
    }
  }

  /** The first five bits give the first character. */
  lemma FirstCharacter(key: PublicKey, t: AddressType, x: bool)
    requires |ReadBits(AddressText(key, t))| >= 5
    requires ReadBits(AddressText(key, t))[..5] == [false, false, false, false, x]
    ensures AddressText(key, t)[6] == if x then 'p' as int else 'q' as int
  {
    hide ReadBits, AddressText, Value;
    CharacterBits(key, t, 0);
    assert ReadBits(AddressText(key, t))[5 * 0..5 * 0 + 5] == ReadBits(AddressText(key, t))[..5];
    ValueFive(false, false, false, false, x);
  }

  lemma SecondCharacter(key: PublicKey, t: AddressType)
    requires |ReadBits(AddressText(key, t))| >= 10
    requires ReadBits(AddressText(key, t))[5..10] == [false, false, true, false, false]
    ensures AddressText(key, t)[7] == 'y' as int
  {
    hide ReadBits, AddressText, Value;
    CharacterBits(key, t, 1);
    assert ReadBits(AddressText(key, t))[5 * 1..5 * 1 + 5] == ReadBits(AddressText(key, t))[5..10];
    ValueFive(false, false, true, false, false);
  }

  /** Schnorr addresses start "kaspa:q", ECDSA addresses "kaspa:qy", script hash addresses "kaspa:p". */
  lemma AddressStarts(s: ScriptBuffer)
    requires IsAccepted(s)
    ensures var a := ScriptAddress(s);
            if s[0] == 0x20 then a[6] == 'q' as int
            else if s[0] == 0x21 then a[6] == 'q' as int && a[7] == 'y' as int
            else a[6] == 'p' as int
  {
    hide ReadBits, AddressText, Unpack, BitsOf;
    var Key(k, t) := KeyOfScript(s);
    var b := ReadBits(AddressText(k, t));
    AddressReads(s);
    VersionBits();
    if s[0] == 0x21 {
      ParityBits(2 + s[1] % 2);
      Leading(b, 272, BitsOf(1, 8), BitsOf(2 + s[1] % 2, 8) + Unpack(s[2..34], 8));
      assert b[5..10] == b[5..8] + b[8..10];
      FirstCharacter(k, t, false);
      SecondCharacter(k, t);
    } else if s[0] == 0x20 {
      Leading(b, 264, BitsOf(0, 8), Unpack(s[1..33], 8));
      FirstCharacter(k, t, false);
    } else {
      Leading(b, 264, BitsOf(8, 8), Unpack(s[2..34], 8));
      FirstCharacter(k, t, true);
    }
  }

  /** The first bits of a row that starts with eight known ones. */
  lemma Leading(b: bits, n: nat, p: bits, q: bits)
    requires n <= |b| && b[..n] == p + q && |p| == 8 && |q| >= 2
    ensures b[..5] == p[..5] && b[5..8] == p[5..] && b[8..10] == q[..2]
  {
    assert b[..5] == b[..n][..5] && b[5..8] == b[..n][5..8] && b[8..10] == b[..n][8..10];
  }
}

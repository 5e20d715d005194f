/** cashaddr_encode of src/import/cashaddr.c. */
module Cashaddr {
  import opened Bytes
  import opened Checksum
  import opened Regroup

  /** "qpzry9x8gf2tvdw0s3jn54khce6mua7l" in ASCII. */
  const CHARSET: seq<byte> := [
    0x71, 0x70, 0x7a, 0x72, 0x79, 0x39, 0x78, 0x38, 0x67, 0x66, 0x32, 0x74, 0x76, 0x64, 0x77, 0x30,
    0x73, 0x33, 0x6a, 0x6e, 0x35, 0x34, 0x6b, 0x68, 0x63, 0x65, 0x36, 0x6d, 0x75, 0x61, 0x37, 0x6c]

  /** The symbol a charset character stands for. */
  function SymbolOf(c: byte): byte {
    match c
    case 0x71 => 0 case 0x70 => 1 case 0x7a => 2 case 0x72 => 3 case 0x79 => 4 case 0x39 => 5 case 0x78 => 6
    case 0x38 => 7 case 0x67 => 8 case 0x66 => 9 case 0x32 => 10 case 0x74 => 11 case 0x76 => 12 case 0x64 => 13
    case 0x77 => 14 case 0x30 => 15 case 0x73 => 16 case 0x33 => 17 case 0x6a => 18 case 0x6e => 19 case 0x35 => 20
    case 0x34 => 21 case 0x6b => 22 case 0x68 => 23 case 0x63 => 24 case 0x65 => 25 case 0x36 => 26 case 0x6d => 27
    case 0x75 => 28 case 0x61 => 29 case 0x37 => 30 case _ => 31
  }

  lemma SymbolRoundTrip(a: byte)
    requires a < 32
    ensures SymbolOf(CHARSET[a]) == a
  {
  }

  function Chars(xs: seq<byte>): (s: seq<byte>)
    requires AreSymbols(xs)
    ensures |s| == |xs|
  {
    seq(|xs|, i requires 0 <= i < |xs| => CHARSET[xs[i]])
  }

  /** The characters are exactly those of the charset. */
  lemma CharsInCharset(xs: seq<byte>, i: nat)
    requires AreSymbols(xs) && i < |xs|
    ensures Chars(xs)[i] in CHARSET
  {
  }

  lemma CharsInjective(xs: seq<byte>, ys: seq<byte>)
    requires AreSymbols(xs) && AreSymbols(ys) && Chars(xs) == Chars(ys)
    ensures xs == ys
  {
    hide SymbolOf;
    assert |xs| == |Chars(xs)| == |ys|;
    forall i | 0 <= i < |xs| ensures xs[i] == ys[i] {
      assert Chars(xs)[i] == CHARSET[xs[i]] && Chars(ys)[i] == CHARSET[ys[i]];
      SymbolRoundTrip(xs[i]);
      SymbolRoundTrip(ys[i]);
    }
  }

  lemma CharsSlice(xs: seq<byte>, k: nat)
    requires AreSymbols(xs) && k <= |xs|
    ensures Chars(xs[..k]) == Chars(xs)[..k] && Chars(xs[k..]) == Chars(xs)[k..]
  {
  }

  /** Symbols of version byte and hash, without the checksum. */
  function Payload(versionByte: byte, hash: seq<byte>): (p: seq<byte>)
    ensures AreSymbols(p)
    ensures 5 * |p| - 5 < 8 * (|hash| + 1) <= 5 * |p|
  {
    hide Regrouped;
    SymbolsOfBytes([versionByte] + hash);
    Regrouped([versionByte] + hash, 8, 5)
  }

  function Codeword(versionByte: byte, hash: seq<byte>): (c: seq<byte>)
    ensures AreSymbols(c) && |c| == |Payload(versionByte, hash)| + 8
  {
    hide Payload, ChecksumSymbols;
    Payload(versionByte, hash) + ChecksumSymbols(Payload(versionByte, hash))
  }

  /** The text after "kaspa:". */
  function Encoded(versionByte: byte, hash: seq<byte>): seq<byte> {
    Chars(Codeword(versionByte, hash))
  }

  /** The three versions and their version bytes. */
  function VersionByte(version: int): (v: int)
    ensures v == -1 || 0 <= v < 32
  {
    if version == 0 then 0 else if version == 1 then 1 else if version == 8 then 8 else -1
  }

  /** One of the two copying loops of cashaddr_encode: maps symbols to characters until the limit. */
  method AppendChars(symbols: seq<byte>, addr: array<byte>, start: nat, done: nat, maxLen: nat) returns (ok: bool)
    requires AreSymbols(symbols) && symbols != []
    requires start < addr.Length && done <= maxLen
    requires done + |symbols| <= maxLen ==> start + done + |symbols| <= addr.Length
    requires done + |symbols| > maxLen ==> start + maxLen <= addr.Length
    modifies addr
    ensures ok == (done + |symbols| <= maxLen)
    ensures ok ==> addr[..] == Overwritten(old(addr[..]), start + done, Chars(symbols))
    ensures addr[..start] == old(addr[..start]) && (!ok ==> addr[start] == 0)
  {
    hide Overwritten;
    var i := 0;
    var at := start + done;
    ghost var s := addr[..];
    NothingWritten(s, at);
    while i < |symbols|
      invariant 0 <= i <= |symbols| && done + i <= maxLen
      invariant at + i <= addr.Length
      invariant addr[..] == Overwritten(s, at, Chars(symbols[..i]))
    {
      assert symbols[0] / 32 == 0; // the exit on "*payload >> 5" is never taken
      if maxLen < done + i + 1 {
        OverwrittenBefore(s, at, Chars(symbols[..i]), start);
        ghost var was := addr[..];
        addr[start] := 0;
        assert addr[..start] == was[..start];
        return false;
      }
      PutByte(addr, at + i, CHARSET[symbols[i]]);
      OverwrittenTwice(s, at, Chars(symbols[..i]), [CHARSET[symbols[i]]]);
      CharsNext(symbols, i);
      i := i + 1;
    }
    assert symbols[..i] == symbols;
    OverwrittenBefore(s, at, Chars(symbols), start);
    return true;
  }

  lemma NothingWritten(s: seq<byte>, k: nat)
    requires k <= |s|
    ensures Overwritten(s, k, []) == s
  {
  }

  lemma CharsNext(xs: seq<byte>, i: nat)
    requires AreSymbols(xs) && i < |xs|
    ensures Chars(xs[..i + 1]) == Chars(xs[..i]) + [CHARSET[xs[i]]]
  {
  }

  /** The part of cashaddr_encode that fills tmp, payload and checksum. */
  method PayloadAndChecksum(versionByte: byte, hash: seq<byte>) returns (p: seq<byte>, c: seq<byte>)
    requires |hash| <= 39
    ensures p == Payload(versionByte, hash) && c == ChecksumSymbols(p)
  {
    hide Pack, Unpack, Regrouped, ChecksumSymbols;
    var checksum := new byte[8];
    var tmp := new byte[40];
    var payload := new byte[70];
    tmp[0] := versionByte;
    CopyInto(tmp, 1, hash);
    assert tmp[..|hash| + 1] == [versionByte] + hash;
    BytesFitEight(tmp[..|hash| + 1]);
    var ok, payloadLength, _ := ConvertBits(payload, 0, 5, tmp[..|hash| + 1], 8, true);
    p := payload[..payloadLength];
    CreateChecksum(p, checksum);
    c := checksum[..];
  }

  /** cashaddr_encode: hash goes with a version byte through tmp, payload and checksum into addr[start..]. */
  method CashaddrEncode(hash: seq<byte>, addr: array<byte>, start: nat, maxLen: nat, version: int) returns (r: int)
    requires |hash| <= 39 && start + maxLen < addr.Length
    modifies addr
    ensures addr[..start] == old(addr[..start])
    ensures VersionByte(version) == -1 ==> r == 0 && addr[..] == Overwritten(old(addr[..]), start, [0])
    ensures VersionByte(version) >= 0 ==>
              var e := Encoded(VersionByte(version), hash);
              if |e| <= maxLen then r == |e| && addr[..] == Overwritten(old(addr[..]), start, e + [0])
              else r == 0 && addr[start] == 0
  {
    hide Payload, ChecksumSymbols, Chars, Overwritten;
    ghost var s := addr[..];
    PutByte(addr, start, 0);
    OverwrittenBefore(s, start, [0], start);
    var versionByte := VersionByte(version);
    if versionByte < 0 {
      return 0;
    }
    var payload, checksum := PayloadAndChecksum(versionByte, hash);
    CharsAppend(payload, checksum);
    var fits := AppendChars(payload, addr, start, 0, maxLen);
    if !fits {
      return 0;
    }
    fits := AppendChars(checksum, addr, start, |payload|, maxLen);
    if !fits {
      return 0;
    }
    r := |payload| + 8;
    PutByte(addr, start + r, 0);
    ghost var p, c := Chars(payload), Chars(checksum);
    OverwrittenAgain(s, start, 0, p);
    OverwrittenTwice(s, start, p, c);
    OverwrittenTwice(s, start, p + c, [0]);
    OverwrittenBefore(s, start, p + c + [0], start);
  }

  lemma OverwrittenAgain(s: seq<byte>, k: nat, b: byte, x: seq<byte>)
    requires x != [] && k + |x| <= |s|
    ensures Overwritten(Overwritten(s, k, [b]), k, x) == Overwritten(s, k, x)
  {
  }

  lemma CharsAppend(xs: seq<byte>, ys: seq<byte>)
    requires AreSymbols(xs) && AreSymbols(ys)
    ensures AreSymbols(xs + ys) && Chars(xs + ys) == Chars(xs) + Chars(ys)
  {
  }

  /** Every encoded address verifies. */
  lemma EncodedIsCodeword(versionByte: byte, hash: seq<byte>)
    ensures IsCodeword(Codeword(versionByte, hash))
  {
    hide Payload, ChecksumSymbols, IsCodeword;
    ChecksumIsValid(Payload(versionByte, hash));
  }

  /** Equal-length addresses that differ only inside eight consecutive characters are equal. */
  lemma AddressBurstDetected(v: byte, hash: seq<byte>, w: byte, other: seq<byte>, k: nat)
    requires |Encoded(v, hash)| == |Encoded(w, other)| && k + 8 <= |Encoded(v, hash)|
    requires Encoded(v, hash)[..k] == Encoded(w, other)[..k]
    requires Encoded(v, hash)[k + 8..] == Encoded(w, other)[k + 8..]
    ensures Encoded(v, hash) == Encoded(w, other)
  {
    hide Codeword, IsCodeword;
    var xs, ys := Codeword(v, hash), Codeword(w, other);
    EncodedIsCodeword(v, hash);
    EncodedIsCodeword(w, other);
    hide Chars;
    CharsSlice(xs, k);
    CharsSlice(ys, k);
    CharsSlice(xs, k + 8);
    CharsSlice(ys, k + 8);
    CharsInjective(xs[..k], ys[..k]);
    CharsInjective(xs[k + 8..], ys[k + 8..]);
    BurstDetected(xs, ys, k);
  }

  /** The text determines version byte and hash. */
  lemma EncodedInjective(v: byte, hash: seq<byte>, w: byte, other: seq<byte>)
    requires Encoded(v, hash) == Encoded(w, other)
    ensures v == w && hash == other
  {
    hide Regrouped, Chars, ChecksumSymbols;
    var xs, ys := Codeword(v, hash), Codeword(w, other);
    CharsInjective(xs, ys);
    assert xs[..|xs| - 8] == Payload(v, hash) && ys[..|ys| - 8] == Payload(w, other);
    RegroupedInjective([v] + hash, [w] + other);
    assert ([v] + hash)[1..] == hash && ([w] + other)[1..] == other;
    assert v == ([v] + hash)[0] && w == ([w] + other)[0];
  }
}

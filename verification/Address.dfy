/** Addresses of keys and scripts: src/address.c and script_public_key_to_address of src/transaction/utils.c. */
module Address {
  import opened Bytes
  import opened Transaction
  import opened Cashaddr

  datatype AddressType = SCHNORR | ECDSA | P2SH

  type PublicKey = k: seq<byte> | |k| == 64
    witness Zeros(64)

  /** "kaspa:" */
  const HRP: seq<byte> := [0x6b, 0x61, 0x73, 0x70, 0x61, 0x3a]

  function AddressLen(t: AddressType): nat {
    if t == ECDSA then 69 else 67
  }

  function Version(t: AddressType): byte {
    match t
    case SCHNORR => 0
    case ECDSA => 1
    case P2SH => 8
  }

  /** The x coordinate, for ECDSA after a byte telling the parity of y. */
  function Compressed(key: PublicKey, t: AddressType): (c: seq<byte>)
    ensures |c| == if t == ECDSA then 33 else 32
  {
    if t == ECDSA then [if key[63] % 2 == 0 then 0x02 else 0x03] + key[..32] else key[..32]
  }

  function AddressText(key: PublicKey, t: AddressType): (a: seq<byte>)
    ensures |a| == AddressLen(t)
  {
    hide Payload;
    HRP + Encoded(Version(t), Compressed(key, t))
  }

  /** compress_public_key: the size written, 0 when out is too short. */
  method CompressPublicKey(key: PublicKey, t: AddressType, out: array<byte>, outLen: nat) returns (size: nat)
    requires outLen <= out.Length
    modifies out
    ensures size == if outLen < |Compressed(key, t)| then 0 else |Compressed(key, t)|
    ensures out[..] == if size == 0 then old(out[..]) else Compressed(key, t) + old(out[size..])
  {
    hide Overwritten;
    if t == SCHNORR || t == P2SH {
      if outLen < 32 {
        return 0;
      }
      CopyInto(out, 0, key[..32]);
      return 32;
    } else {
      if outLen < 33 {
        return 0;
      }
      var prefix: byte := if key[63] % 2 == 0 then 0x02 else 0x03;
      ghost var s := out[..];
      PutByte(out, 0, prefix);
      CopyInto(out, 1, key[..32]);
      OverwrittenTwice(s, 0, [prefix], key[..32]);
      OverwrittenFront(s, [prefix] + key[..32]);
      return 33;
    }
  }

  /** The part of address_from_pubkey that compresses into a local buffer. */
  method CompressLocally(key: PublicKey, t: AddressType) returns (c: seq<byte>)
    ensures c == Compressed(key, t)
  {
    hide Compressed;
    var compressed := new byte[33];
    CopyInto(compressed, 0, Zeros(33));
    var size := CompressPublicKey(key, t, compressed, 33);
    c := compressed[..size];
  }

  /** The middle of address_from_pubkey: the prefix, and after it the encoded key. */
  method PrefixAndEncode(hash: seq<byte>, address: array<byte>, addressLen: nat, version: byte)
    requires address.Length == 80 && |hash| <= 39 && VersionByte(version) >= 0 && addressLen < 74
    requires 6 + |Encoded(VersionByte(version), hash)| == addressLen
    modifies address
    ensures address[..addressLen] == HRP + Encoded(VersionByte(version), hash)
  {
    hide Encoded;
    CopyInto(address, 0, [0x6b, 0x61, 0x73, 0x70, 0x61, 0]);
    address[5] := 0x3a;
    ghost var s := address[..];
    assert s[..6] == HRP;
    var r := CashaddrEncode(hash, address, 6, addressLen, version);
    ghost var e := Encoded(VersionByte(version), hash);
    assert Overwritten(s, 6, e + [0])[..addressLen] == s[..6] + e;
  }

  /** address_from_pubkey: always succeeds when out has room for the address. */
  method AddressFromPubkey(key: PublicKey, t: AddressType, out: array<byte>, outLen: nat) returns (ok: bool)
    requires outLen <= out.Length
    modifies out
    ensures ok == (outLen >= AddressLen(t))
    ensures out[..] == if ok then AddressText(key, t) + old(out[AddressLen(t)..]) else old(out[..])
  {
    hide Payload, Encoded, Compressed, Overwritten;
    var address := new byte[80];
    CopyInto(address, 0, Zeros(80));
    var addressLen, version := 67, 0;
    if t == ECDSA {
      addressLen, version := 69, 1;
    } else if t == P2SH {
      addressLen, version := 67, 8;
    }
    if outLen < addressLen {
      return false;
    }
    var compressed := CompressLocally(key, t);
    if compressed == [] {
      return false;
    }
    EncodedSize(key, t);
    PrefixAndEncode(compressed, address, addressLen, version);
    CopyInto(out, 0, address[..addressLen]);
    return true;
  }

  lemma EncodedSize(key: PublicKey, t: AddressType)
    ensures |Encoded(Version(t), Compressed(key, t))| == AddressLen(t) - 6
  {
    hide Payload;
  }

  datatype ScriptKey = NoKey | Key(key: PublicKey, kind: AddressType)

  /** Which kind of address a script gives, and the key it is made from; NoKey where the C code gives up. */
  function KeyOfScript(s: seq<byte>): ScriptKey {
    if |s| < 32 then NoKey
    else if s[0] == OP_BLAKE2B then
      if |s| < 35 then NoKey else Key(s[2..34] + Zeros(32), P2SH)
    else if s[0] == 0x21 then
      if |s| < 35 then NoKey else Key(s[2..34] + seq(32, i => s[1]), ECDSA)
    else
      if |s| < 34 then NoKey else Key(s[1..33] + Zeros(32), SCHNORR)
  }

  /** script_public_key_to_address. */
  method ScriptPublicKeyToAddress(out: array<byte>, outLen: nat, script: seq<byte>) returns (ok: bool)
    requires outLen <= out.Length
    modifies out
    ensures ok == (KeyOfScript(script).Key? && outLen >= AddressLen(KeyOfScript(script).kind))
    ensures out[..] == if ok then var Key(k, t) := KeyOfScript(script); AddressText(k, t) + old(out[AddressLen(t)..])
                       else old(out[..])
  {
    hide AddressText;
    var key := new byte[64];
    CopyInto(key, 0, Zeros(64));
    if |script| < 32 {
      return false;
    }
    var t, addressLen := SCHNORR, 67;
    if script[0] == OP_BLAKE2B {
      if |script| < 35 {
        return false;
      }
      t, addressLen := P2SH, 67;
      CopyInto(key, 0, script[2..34]);
    } else if script[0] == 0x21 {
      if |script| < 35 {
        return false;
      }
      t, addressLen := ECDSA, 69;
      CopyInto(key, 0, script[2..34]);
      CopyInto(key, 32, seq(32, i => script[1]));
    } else {
      if |script| < 34 {
        return false;
      }
      CopyInto(key, 0, script[1..33]);
    }
    if outLen < addressLen {
      return false;
    }
    assert key[..] == KeyOfScript(script).key;
    ok := AddressFromPubkey(key[..], t, out, addressLen);
  }

  /** What "%s" prints of a character buffer. */
  function CString(s: seq<byte>): seq<byte> {
    if s == [] || s[0] == 0 then [] else [s[0]] + CString(s[1..])
  }

  lemma {:induction false} CStringText(s: seq<byte>, n: nat)
    requires 0 !in s
    ensures CString(s + Zeros(n)) == s
  {
    if s == [] {
      assert s + Zeros(n) == Zeros(n);
    } else {
      CStringText(s[1..], n);
      assert (s + Zeros(n))[1..] == s[1..] + Zeros(n);
    }
  }

  /** "kaspa:" and then charset characters only. */
  lemma AddressForm(key: PublicKey, t: AddressType)
    ensures AddressText(key, t)[..6] == HRP
    ensures forall i :: 6 <= i < AddressLen(t) ==> AddressText(key, t)[i] in CHARSET
  {
    hide Payload, Codeword, Compressed, Chars;
    var c, a := Codeword(Version(t), Compressed(key, t)), AddressText(key, t);
    EncodedSize(key, t);
    forall i | 6 <= i < AddressLen(t) ensures a[i] in CHARSET {
      CharsInCharset(c, i - 6);
      assert a[i] == Chars(c)[i - 6];
    }
  }

  /** The address in a zero-filled buffer is printed whole. */
  lemma AddressIsText(key: PublicKey, t: AddressType, n: nat)
    ensures CString(AddressText(key, t) + Zeros(n)) == AddressText(key, t)
  {
    hide AddressText, CString;
    var a := AddressText(key, t);
    AddressForm(key, t);
    assert 0 !in CHARSET && 0 !in a[..6];
    forall i | 0 <= i < |a| ensures a[i] != 0 {
      assert i < 6 ==> a[i] == a[..6][i];
    }
    CStringText(a, n);
  }

  /** The text shown for an output script buffer. */
  function ScriptAddress(s: ScriptBuffer): seq<byte> {
    var Key(k, t) := KeyOfScript(s);
    AddressText(k, t)
  }

  /** Every accepted script has an address that fits 69 bytes: "kaspa:" and then charset characters only. */
  lemma AcceptedScriptHasAddress(s: ScriptBuffer)
    requires IsAccepted(s)
    ensures KeyOfScript(s).Key? && |ScriptAddress(s)| == if IsEcdsa(s) then 69 else 67
    ensures ScriptAddress(s)[..6] == HRP
    ensures forall i :: 6 <= i < |ScriptAddress(s)| ==> ScriptAddress(s)[i] in CHARSET
  {
    hide AddressText;
    var Key(k, t) := KeyOfScript(s);
    AddressForm(k, t);
  }

  /** An accepted script with the ECDSA prefix byte replaced by the one of the same parity among 0x02 and 0x03. */
  function Normalized(s: ScriptBuffer): seq<byte> {
    if IsEcdsa(s) then [0x21, 2 + s[1] % 2] + s[2..35] else Script(s)
  }

  /** The opcodes around the key in a script of each kind. */
  function Opener(kind: AddressType): seq<byte> {
    match kind
    case SCHNORR => [0x20]
    case ECDSA => [0x21]
    case P2SH => [OP_BLAKE2B, 0x20]
  }

  function Closer(kind: AddressType): seq<byte> {
    match kind
    case SCHNORR => [OP_CHECKSIG]
    case ECDSA => [OP_CHECKSIG_ECDSA]
    case P2SH => [OP_EQUAL]
  }

  /** A normalized script is the compressed key between its opcodes. */
  lemma NormalForm(s: ScriptBuffer)
    requires IsAccepted(s)
    ensures var Key(k, t) := KeyOfScript(s);
            Normalized(s) == Opener(t) + Compressed(k, t) + Closer(t)
  {
    hide Normalized, Compressed;
    if IsEcdsa(s) {
      EcdsaForm(s);
    } else if IsP2sh(s) {
      P2shForm(s);
    } else {
      SchnorrForm(s);
    }
  }

  lemma EcdsaForm(s: ScriptBuffer)
    requires IsEcdsa(s)
    ensures Normalized(s) == [0x21] + Compressed(KeyOfScript(s).key, ECDSA) + [OP_CHECKSIG_ECDSA]
  {
    hide Script, Compressed, KeyOfScript;
    EcdsaKey(s);
    assert s[2..35] == s[2..34] + [OP_CHECKSIG_ECDSA];
    Rejoin(2 + s[1] % 2, s[2..34], OP_CHECKSIG_ECDSA);
  }

  lemma EcdsaKey(s: ScriptBuffer)
    requires IsEcdsa(s)
    ensures Compressed(KeyOfScript(s).key, ECDSA) == [2 + s[1] % 2] + s[2..34]
  {
    var k := KeyOfScript(s).key;
    assert k[63] == s[1] && k[..32] == s[2..34];
  }

  lemma Rejoin(p: byte, x: seq<byte>, o: byte)
    ensures [0x21, p] + (x + [o]) == [0x21] + ([p] + x) + [o]
  {
  }

  lemma P2shForm(s: ScriptBuffer)
    requires IsP2sh(s)
    ensures Normalized(s) == [OP_BLAKE2B, 0x20] + Compressed(KeyOfScript(s).key, P2SH) + [OP_EQUAL]
  {
    assert Compressed(KeyOfScript(s).key, P2SH) == s[2..34];
  }

  lemma SchnorrForm(s: ScriptBuffer)
    requires IsSchnorr(s)
    ensures Normalized(s) == [0x20] + Compressed(KeyOfScript(s).key, SCHNORR) + [OP_CHECKSIG]
  {
    assert Compressed(KeyOfScript(s).key, SCHNORR) == s[1..33];
  }

  lemma SameInside(a: seq<byte>, x: seq<byte>, y: seq<byte>, b: seq<byte>)
    requires |x| == |y| && a + x + b == a + y + b
    ensures x == y
  {
    assert x == (a + x + b)[|a|..|a| + |x|] && y == (a + y + b)[|a|..|a| + |y|];
  }

  /** The displayed address and the accepted script determine each other, up to the ECDSA prefix byte's parity. */
  lemma AddressDeterminesScript(s: ScriptBuffer, t: ScriptBuffer)
    requires IsAccepted(s) && IsAccepted(t)
    ensures ScriptAddress(s) == ScriptAddress(t) <==> Normalized(s) == Normalized(t)
  {
    hide Payload, Encoded, Compressed, Normalized;
    var Key(k, kind) := KeyOfScript(s);
    var Key(l, other) := KeyOfScript(t);
    if ScriptAddress(s) == ScriptAddress(t) {
      AcceptedScriptHasAddress(s);
      AcceptedScriptHasAddress(t);
      assert |Compressed(k, kind)| == |Compressed(l, other)|;
      assert ScriptAddress(s)[6..] == Encoded(Version(kind), Compressed(k, kind));
      assert ScriptAddress(t)[6..] == Encoded(Version(other), Compressed(l, other));
      EncodedInjective(Version(kind), Compressed(k, kind), Version(other), Compressed(l, other));
    }
    NormalForm(s);
    NormalForm(t);
    if Normalized(s) == Normalized(t) {
      assert Opener(kind)[0] == Normalized(s)[0] == Opener(other)[0];
      SameInside(Opener(kind), Compressed(k, kind), Compressed(l, kind), Closer(kind));
    }
  }

  /** With the prefix bytes that keys have, equal addresses mean equal scripts. */
  lemma AddressDeterminesKeyScript(s: ScriptBuffer, t: ScriptBuffer)
    requires IsAccepted(s) && IsAccepted(t) && ScriptAddress(s) == ScriptAddress(t)
    requires IsEcdsa(s) ==> s[1] == 2 || s[1] == 3
    requires IsEcdsa(t) ==> t[1] == 2 || t[1] == 3
    ensures Script(s) == Script(t)
  {
    hide ScriptAddress;
    AddressDeterminesScript(s, t);
    var m, n := Normalized(s), Normalized(t);
    assert m[0] == s[0] && n[0] == t[0];
    if IsEcdsa(s) {
      assert m[1] == s[1] && n[1] == t[1];
      assert Script(s) == m && Script(t) == n;
    }
  }
}

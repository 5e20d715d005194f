/** The three APDU payload formats of SIGN_TX: what the serializers write and the parsers accept, on values. */
module Wire {
  import opened Bytes
  import opened Transaction

  datatype Status =
    | PARSING_OK
    | VERSION_ERROR
    | OUTPUTS_LENGTH_ERROR
    | INPUTS_LENGTH_ERROR
    | HEADER_ERROR
    | INPUT_ERROR
    | INPUT_VALUE_ERROR
    | INPUT_TX_ID_ERROR
    | INPUT_ADDRESS_TYPE_ERROR
    | INPUT_ADDRESS_INDEX_ERROR
    | INPUT_INDEX_ERROR
    | OUTPUT_ERROR
    | OUTPUT_VALUE_ERROR
    | OUTPUT_SCRIPT_ERROR
  {
    /** The enumerator values of parser_status_e. */
    function Code(): int {
      match this
      case PARSING_OK => 1
      case VERSION_ERROR => -1
      case OUTPUTS_LENGTH_ERROR => -2
      case INPUTS_LENGTH_ERROR => -3
      case HEADER_ERROR => -4
      case INPUT_ERROR => -20
      case INPUT_VALUE_ERROR => -21
      case INPUT_TX_ID_ERROR => -22
      case INPUT_ADDRESS_TYPE_ERROR => -23
      case INPUT_ADDRESS_INDEX_ERROR => -24
      case INPUT_INDEX_ERROR => -25
      case OUTPUT_ERROR => -30
      case OUTPUT_VALUE_ERROR => -31
      case OUTPUT_SCRIPT_ERROR => -32
    }
  }

  /** Big-endian fields of a byte string. */
  function U16(s: seq<byte>): u16
    requires |s| == 2
  {
    EncodeBE(s);
    WidthBounds();
    FromBE(s)
  }

  function U32(s: seq<byte>): u32
    requires |s| == 4
  {
    EncodeBE(s);
    WidthBounds();
    FromBE(s)
  }

  function U64(s: seq<byte>): u64
    requires |s| == 8
  {
    EncodeBE(s);
    WidthBounds();
    FromBE(s)
  }

  // ----- outputs

  function EncodeOutput(o: Output): seq<byte> {
    BE(o.value, 8) + Script(o.script)
  }

  /** The length of the script form that starts with these bytes, or 0 when there is none. */
  function FormLength(r: seq<byte>): (n: nat)
    ensures n == 0 || n == 34 || n == 35
  {
    if |r| == 0 then 0
    else if r[0] == OP_BLAKE2B then
      if |r| >= 35 && r[1] == 0x20 && r[34] == OP_EQUAL then 35 else 0
    else if r[0] == 0x20 then
      if |r| >= 34 && r[33] == OP_CHECKSIG then 34 else 0
    else if r[0] == 0x21 then
      if |r| >= 35 && r[34] == OP_CHECKSIG_ECDSA then 35 else 0
    else 0
  }

  /** transaction_output_deserialize on the unread bytes; a failing parse may leave the value behind. */
  function ParseOutput(rest: seq<byte>, prior: Output): (Status, Output) {
    if |rest| < 8 then (OUTPUT_VALUE_ERROR, prior.(value := 0))
    else
      var o := prior.(value := U64(rest[..8]));
      var r := rest[8..];
      var n := FormLength(r);
      if n == 0 then (OUTPUT_SCRIPT_ERROR, o)
      else (if |r| == n then PARSING_OK else OUTPUT_ERROR, o.(script := r[..n] + prior.script[n..]))
  }

  /** Whatever is accepted is exactly what the serializer writes for the parsed output. */
  lemma OutputAcceptedIsEncoded(rest: seq<byte>, prior: Output)
    requires ParseOutput(rest, prior).0 == PARSING_OK
    ensures var o := ParseOutput(rest, prior).1; IsAccepted(o.script) && EncodeOutput(o) == rest
  {
    EncodeBE(rest[..8]);
    var o := ParseOutput(rest, prior).1;
    assert Script(o.script) == rest[8..];
  }

  /** Whatever the serializer writes for an accepted script parses back to the same value and script. */
  lemma OutputEncodedIsAccepted(o: Output, prior: Output)
    requires IsAccepted(o.script)
    ensures var (st, p) := ParseOutput(EncodeOutput(o), prior);
            st == PARSING_OK && p.value == o.value && Script(p.script) == Script(o.script)
  {
    var rest := EncodeOutput(o);
    WidthBounds();
    DecodeBE(o.value, 8);
    assert rest[..8] == BE(o.value, 8) && rest[8..] == Script(o.script);
    var r := rest[8..];
    assert forall i :: 0 <= i < |r| ==> r[i] == o.script[i];
    var p := ParseOutput(rest, prior).1;
    assert Script(p.script) == r;
  }

  // ----- inputs

  function EncodeInput(i: Input): seq<byte> {
    BE(i.value, 8) + i.txId + [i.addressType] + BE(i.addressIndex, 4) + [i.index]
  }

  /** transaction_input_deserialize: fields before the failing one are already stored. */
  function ParseInput(rest: seq<byte>, prior: Input): (Status, Input) {
    if |rest| < 8 then (INPUT_VALUE_ERROR, prior.(value := 0))
    else
      var a := prior.(value := U64(rest[..8]));
      if |rest| < 40 then (INPUT_TX_ID_ERROR, a)
      else
        var b := a.(txId := rest[8..40]);
        if |rest| < 41 then (INPUT_ADDRESS_TYPE_ERROR, b.(addressType := 0))
        else
          var c := b.(addressType := rest[40]);
          if |rest| < 45 then (INPUT_ADDRESS_INDEX_ERROR, c.(addressIndex := 0))
          else
            var d := c.(addressIndex := U32(rest[41..45]));
            if |rest| < 46 then (INPUT_INDEX_ERROR, d.(index := 0))
            else (if |rest| == 46 then PARSING_OK else INPUT_ERROR, d.(index := rest[45]))
  }

  lemma InputAcceptedIsEncoded(rest: seq<byte>, prior: Input)
    requires ParseInput(rest, prior).0 == PARSING_OK
    ensures EncodeInput(ParseInput(rest, prior).1) == rest
  {
    hide BE, FromBE;
    EncodeBE(rest[..8]);
    EncodeBE(rest[41..45]);
    assert rest == rest[..8] + rest[8..40] + [rest[40]] + rest[41..45] + [rest[45]];
  }

  /** The parsed input is the encoded one; its sequence number stays what it was. */
  lemma InputEncodedIsAccepted(i: Input, prior: Input)
    ensures ParseInput(EncodeInput(i), prior) == (PARSING_OK, i.(sequence := prior.sequence))
  {
    hide BE, FromBE;
    var rest := EncodeInput(i);
    WidthBounds();
    DecodeBE(i.value, 8);
    DecodeBE(i.addressIndex, 4);
    assert rest[..8] == BE(i.value, 8) && rest[8..40] == i.txId && rest[41..45] == BE(i.addressIndex, 4);
  }

  // ----- header

  datatype Header = Header(version: u16, outputLen: u8, inputLen: u8, changeType: u8, changeIndex: u32, account: u32)
  {
    predicate Valid(maxInputs: nat) {
      1 <= outputLen <= MAX_OUTPUTS && 1 <= inputLen <= maxInputs && changeType <= 1 && account >= 0x8000_0000
    }
  }

  type Path = s: seq<u32> | |s| == 5
    witness [0, 0, 0, 0, 0]

  const PURPOSE: u32 := 0x8000_002C
  const COIN_TYPE: u32 := 0x8001_b207

  function EncodeHeader(h: Header): seq<byte> {
    BE(h.version, 2) + [h.outputLen] + [h.inputLen] + [h.changeType] + BE(h.changeIndex, 4) + BE(h.account, 4)
  }

  /** transaction_deserialize on the unread bytes, the previous structure and the previous path. */
  function ParseHeader(rest: seq<byte>, prior: Tx, path: Path, maxInputs: nat): (Status, Tx, Path) {
    if |rest| < 2 then (VERSION_ERROR, prior.(version := 0), path)
    else
      var a := prior.(version := U16(rest[..2]));
      if |rest| < 3 then (OUTPUTS_LENGTH_ERROR, a, path)
      else
        var b := a.(outputLen := rest[2]);
        if b.outputLen < 1 || b.outputLen > 2 then (OUTPUTS_LENGTH_ERROR, b, path)
        else if |rest| < 4 then (INPUTS_LENGTH_ERROR, b, path)
        else
          var c := b.(inputLen := rest[3]);
          if c.inputLen < 1 || c.inputLen > maxInputs then (INPUTS_LENGTH_ERROR, c, path)
          else ParseChange(rest[4..], c, path)
  }

  /** The rest of the header: change address and account. */
  function ParseChange(r: seq<byte>, tx: Tx, path: Path): (Status, Tx, Path) {
    if |r| < 1 || r[0] > 1 || |r| < 5 then (HEADER_ERROR, tx, path)
    else if |r| < 9 then (HEADER_ERROR, tx.(account := 0), path)
    else
      var d := tx.(account := U32(r[5..9]));
      if d.account < 0x8000_0000 then (HEADER_ERROR, d, path)
      else (if |r| == 9 then PARSING_OK else HEADER_ERROR, d, [PURPOSE, COIN_TYPE, d.account, r[0], U32(r[1..5])])
  }

  /** The header a structure and a path stand for. */
  predicate HoldsHeader(h: Header, tx: Tx, path: Path) {
    tx.version == h.version && tx.outputLen == h.outputLen && tx.inputLen == h.inputLen && tx.account == h.account &&
    path == [PURPOSE, COIN_TYPE, h.account, h.changeType, h.changeIndex]
  }

  lemma HeaderEncodedIsAccepted(h: Header, prior: Tx, path: Path, maxInputs: nat)
    requires h.Valid(maxInputs)
    ensures var (st, tx, p) := ParseHeader(EncodeHeader(h), prior, path, maxInputs);
            st == PARSING_OK && HoldsHeader(h, tx, p) && tx.outputs == prior.outputs && tx.inputs == prior.inputs
  {
    hide BE, FromBE;
    var rest := EncodeHeader(h);
    WidthBounds();
    DecodeBE(h.version, 2);
    DecodeBE(h.changeIndex, 4);
    DecodeBE(h.account, 4);
    assert rest[4..] == [h.changeType] + BE(h.changeIndex, 4) + BE(h.account, 4);
    assert rest[..2] == BE(h.version, 2) && rest[4..][1..5] == BE(h.changeIndex, 4) && rest[4..][5..9] == BE(h.account, 4);
  }

  /** An accepted header is the encoding of a valid one, and that is what the structure and the path hold. */
  lemma HeaderAcceptedIsEncoded(rest: seq<byte>, prior: Tx, path: Path, maxInputs: nat) returns (h: Header)
    requires ParseHeader(rest, prior, path, maxInputs).0 == PARSING_OK
    ensures var (_, tx, p) := ParseHeader(rest, prior, path, maxInputs);
            h.Valid(maxInputs) && EncodeHeader(h) == rest && HoldsHeader(h, tx, p)
  {
    hide BE, FromBE;
    assert |rest| == 13;
    h := Header(U16(rest[..2]), rest[2], rest[3], rest[4], U32(rest[5..9]), U32(rest[9..13]));
    EncodeBE(rest[..2]);
    EncodeBE(rest[5..9]);
    EncodeBE(rest[9..13]);
    assert rest[4..][1..5] == rest[5..9] && rest[4..][5..9] == rest[9..13];
    assert rest == rest[..2] + [rest[2]] + [rest[3]] + [rest[4]] + rest[5..9] + rest[9..13];
  }
}

# Verified model of the Kaspa Ledger app

A Dafny model of the parts of the Kaspa signing app that decide what is shown, approved and signed, with proofs that
hold for every input, every run and every cutting of data.

| files | models |
|---|---|
| `Bytes.dfy`, `Word64.dfy` | bytes, fixed-width integers, little- and big-endian encodings, 64-bit word operations |
| `Rfc7693.dfy`, `Rfc7693Facts.dfy`, `MixingBijection.dfy`, `Blake2b.dfy` | RFC 7693 as functions, and what fixes them; the streaming implementation as a class over its buffers |
| `Transaction.dfy`, `Wire.dfy`, `Deserialize.dfy`, `Serialize.dfy` | transaction structures, their wire formats, parsers and serializers |
| `SighashSpec.dfy`, `Sighash.dfy`, `SighashBinding.dfy` | the signed digest, its computation through reused buffers, and what it binds |
| `Checksum.dfy`, `Regroup.dfy`, `Cashaddr.dfy`, `Address.dfy` | checksum register, 8-to-5-bit regrouping, addresses of keys and scripts |
| `BitVectors.dfy`, `ChecksumBits.dfy`, `ChecksumField.dfy` | the register on machine words, and as an operation over GF(32) |
| `AddressReading.dfy`, `AddressVector.dfy` | what a reader gets out of an address; a published address, computed |
| `FieldTables.dfy`, `Replies.dfy` | every hashed string, chunk and response by position; every refusal by its status word |
| `Validation.dfy`, `SessionSpec.dfy`, `Session.dfy` | fees, the check before the review, the signing session as a step function and as a class |
| `SessionSafety.dfy`, `ChangeOutput.dfy`, `LaterApprovals.dfy` | what all runs keep, and which key an approved transaction's change goes to |
| `HonestSession.dfy`, `OpenSlots.dfy`, `RefusedHeader.dfy` | what a host that follows the protocol gets, and what happens when it does not |

`dafny verify dfyconfig.toml` checks everything.

## How the model is built

Code that works in place is a class or a method over arrays, and its contract equates the new state with a function of
the old one; the properties are then proved about that function. `Blake2b.State` and `Session.Context` carry the fields
of `blake2b_state` and `G_context`; `Blake2b.Scratch` is the static `b2bg_cx` that all hash states share.

- Words and registers are integers with explicit wrap-around. Exclusive or is defined bit by bit; `Word64.XorBitAt` and
  `Word64.RotRBits` say what it and rotation do to each bit. In `convert_bits` and `load64` an `|` of values without
  common bits is written as a sum.
- `size_t` is unbounded. `MAX_INPUT_COUNT` is a parameter between 1 and 255 (the builds use 15 and 128).
- Pointers to read-only data are values; a pointer into an array is the array and an index.
- The union in `G_context` is modelled by its transaction part alone, which is blank and unused outside
  CONFIRM_TRANSACTION: no branch reads it there, and every change of request type clears the context first.
- Counts taken from a rejected header may exceed the arrays. Reads past an array give arbitrary values
  (`SessionSpec.Beyond`), and session properties that speak about counts assume an accepted header.

Assumptions about code outside the repository:

- while a review is on screen only the user's decision arrives, and decisions arrive only then (`SessionSpec.Enabled`);
- an SDK read that fails does not advance and stores 0 in its destination; a command without data has a null pointer;
- keys and signatures are functions of the derivation path, and of path, sighash and nonce (`Validation.Device`); any
  foreign call, and the formatting of text for the display, may fail in any step (`SessionSpec.Env`).

Where the repository's prose and its code differ, the model follows the code: the ECDSA prefix is 0x02 for an even y
(src/address.c:50-51, otherwise in src/address.h); inputs may equal outputs (src/transaction/tx_validate.c:83, otherwise
in doc/TRANSACTION.md:65); the context is not reset after the last signature (src/handler/sign_tx.c:51-52, otherwise in
doc/COMMANDS.md:112); the header serializer asks for 9 bytes of room and writes 13, the output serializer asks for 41 and
writes up to 43, which the model reports as `Serialize.Overrun`; a rejected header leaves the request type set
(src/handler/sign_tx.c:61-71).

Some promises of the repository hold under a condition only. Each is proved with the guard the code itself tests, and
where it fails a run shows it:

- A transaction is immune to further chunks if and only if every declared slot has been stored
  (`SessionSafety.FrozenIffFullyParsed`). So what was approved is what gets signed if and only if it was fully parsed when
  it was approved (`OpenSlots.SignedIsApprovedIff`). P2_LAST on an early input leads to an approval with open slots
  (`OpenSlots.EarlyRun`), after which one chunk and one request get another transaction signed
  (`OpenSlots.SwappedFromPowerUp`).
- The first approval of a session pays its change to the header's change key. Signing then moves the path to the signed
  input's, so later reviews are checked against that, and an input chunk with a byte too many can bring any address of
  the account there. If the first approval is answered with a signature, all later ones pay the header's key if and only
  if there is one output only, all outputs or all inputs were in at the first one, or the account has no other key. If it
  is not, they also do where the first input's key is the change key and one input slot is left. No other hypothesis is
  made (`LaterApprovals.EveryApprovalPaysIff`); `OpenSlots.ChangeEscapes` is a run from power-up in which a second
  approval pays its change elsewhere.
- The fee on screen is exact if and only if the exact totals of inputs and outputs exceed 2^64 equally often
  (`SessionSafety.ReviewedFee`); `HonestSession.OverspendShown` is a session that is shown a fee of 5 while its outputs
  exceed its inputs.
- A P1_START, refused or not, can be followed by a signature if and only if the counts it stored are ones the validation
  lets through (`RefusedHeader.StartSignsIff`); a valid header with bytes behind it is refused and leaves such counts
  (`RefusedHeader.OverlongHeaderSigns`).
- The n-th signature is of a declared input if and only if n modulo 256 is below their number
  (`SessionSafety.SignsDeclaredIff`); one request too many is answered too (`HonestSession.OneTooMany`).
- Equal addresses mean equal scripts up to the parity of the ECDSA prefix byte, and conversely
  (`Address.AddressDeterminesScript`).

Specification functions are shared by the code's model and the theorems about it. So that they say what the formats are and
not just what the code does, `FieldTables.dfy`, `Rfc7693Facts.dfy`, `ChecksumField.dfy`, `AddressReading.dfy`,
`AddressVector.dfy` and `Replies.dfy` state each of them again without its own definitions: field positions, bits, square
roots of primes, arithmetic in GF(32), characters and status words.

## Model

| member | source | states |
|---|---|---|
| `Word64.RotRBits` | src/import/blake2-impl.h:149-152 | `rotr64` moves bit i + c, counted round, to bit i |
| `Word64.RotInverse` | src/import/blake2-impl.h:149-152 | rotating by c and by 64 - c gives the word back |
| `Word64.XorBitAt` | src/import/blake2b.c:154-164 | the exclusive or of the mixing step differs from its operands bit by bit |
| `Rfc7693Facts.SquareRoots` | src/import/blake2b.c:25-31 | each word of the initialisation vector is the first 64 fraction bits of the square root of a prime |
| `Rfc7693Facts.FirstRows` | src/import/blake2b.c:33-47 | schedule rows 0 and 1 as hexadecimal digits |
| `Rfc7693Facts.NextRows` | src/import/blake2b.c:33-47 | rows 2 and 3 |
| `Rfc7693Facts.MiddleRows` | src/import/blake2b.c:33-47 | rows 4 and 5 |
| `Rfc7693Facts.LaterRows` | src/import/blake2b.c:33-47 | rows 6 and 7 |
| `Rfc7693Facts.LastRows` | src/import/blake2b.c:33-47 | rows 8 and 9 |
| `Rfc7693Facts.GMixes` | src/import/blake2b.c:154-164 | G by sums modulo 2^64 and single bits, rotated by 32, 24, 16 and 63 |
| `Rfc7693Facts.BitsDetermine` | src/import/blake2b.c:154-164 | those bits determine the words |
| `Rfc7693Facts.RoundLayout` | src/import/blake2b.c:166-176 | a round is the eight listed steps with their message words |
| `Rfc7693Facts.NextRound` | src/import/blake2b.c:203-214 | round n takes schedule row n modulo 10 |
| `Rfc7693Facts.TwelveRounds` | src/import/blake2b.c:203-218 | the result is folded from the vector after twelve rounds |
| `Rfc7693Facts.StartLayout` | src/import/blake2b.c:188-201 | the starting vector word by word: counter in 12 and 13, word 14 inverted for the last block |
| `Rfc7693Facts.FoldLayout` | src/import/blake2b.c:216-218 | each result bit is the exclusive or of three |
| `Rfc7693Facts.WordBytes` | src/import/blake2b.c:184-186 | message words are the block's bytes, little-endian |
| `Rfc7693Facts.NextBlock` | src/import/blake2b.c:240-245 | whole blocks are chained with the bytes so far as the counter |
| `Rfc7693Facts.FinalBlock` | src/import/blake2b.c:265-268 | the last block, zero-filled, is compressed with the total length |
| `Rfc7693Facts.DigestWords` | src/import/blake2b.c:270-271 | the digest is the chaining value's words, little-endian |
| `Rfc7693Facts.KeyedStart` | src/import/blake2b.c:122-152 | key block and start value, bit by bit, and what the keyed digest is of |
| `Bytes.DecodeLE` | src/import/blake2-impl.h:105-120 | what `store64` and the write helpers put down, `load64` reads back |
| `FieldTables.ByteAt` | src/import/blake2-impl.h:105-120 | byte i of an encoding counts 256^i, from the front little-endian and from the back big-endian |
| `MixingBijection.GInverse` | src/import/blake2b.c:154-164 | G has a two-sided inverse for any two message words |
| `MixingBijection.RoundsBijective` | src/import/blake2b.c:166-214 | any number of rounds, the twelve of F included, is a bijection on working vectors for every message block |
| `Blake2b.StoredSigmaIsRfc` | src/import/blake2b.c:33-47 | the twelve stored schedule rows are the RFC's ten, row r being row r mod 10 |
| `Blake2b.MixLane` | src/import/blake2b.c:154-164 | macro G on four places of the shared vector is one mixing step of RFC 7693 section 3.1 |
| `Blake2b.MixRound` | src/import/blake2b.c:166-176 | macro ROUND extends a run of RFC rounds by one |
| `Blake2b.MixTwelve` | src/import/blake2b.c:203-214 | the twelve lines leave the vector of twelve RFC rounds |
| `Blake2b.State.IncrementCounter` | src/import/blake2b.c:68-72 | the two limbs count modulo 2^128, carry included |
| `Blake2b.State.LoadVector` | src/import/blake2b.c:182-201 | message words and starting vector, whatever the shared scratch held before |
| `Blake2b.State.Compress` | src/import/blake2b.c:178-221 | the chaining value becomes F of section 3.2 of RFC 7693 |
| `Blake2b.ParamChaining` | src/import/blake2b.c:83-96 | xoring the packed parameter block into IV is the RFC's 0x01010000 ^ (kk << 8) ^ nn |
| `Blake2b.State.InitIv` | src/import/blake2b.c:74-80 | any memory becomes a cleared state with chaining value IV |
| `Blake2b.State.InitParam` | src/import/blake2b.c:83-96 | any memory becomes a state that has absorbed nothing |
| `Blake2b.State.Init` | src/import/blake2b.c:100-119 | unkeyed start, refused exactly for a digest length outside 1 to 64 |
| `Blake2b.State.InitKey` | src/import/blake2b.c:122-152 | keyed start with the padded key as first block, refused exactly for lengths outside 1 to 64 |
| `Blake2b.State.CompressNext` | src/import/blake2b.c:237-242 | one block more is chained and counted |
| `Blake2b.State.CompressHeld` | src/import/blake2b.c:233-239 | the held-back bytes and the start of the data are one chained block |
| `Blake2b.State.CompressWhole` | src/import/blake2b.c:240-245 | all whole blocks but the last are chained, at least one byte is left |
| `Blake2b.State.Update` | src/import/blake2b.c:226-251 | the absorbed bytes grow by the data; everything else stays chained, counted or held back, the last block always |
| `Blake2b.State.Final` | src/import/blake2b.c:253-277 | emits the RFC digest of all absorbed bytes once, and refuses a short buffer or a second call without writing |
| `Blake2b.State.PadLast` | src/import/blake2b.c:265-267 | counter, last flag and padded block as the final compression needs them |
| `Blake2b.State.Emit` | src/import/blake2b.c:270-274 | the first digest bytes go out, nothing behind them changes |
| `Blake2b.State.StoreWords` | src/import/blake2b.c:270-271 | the digest words go out little-endian in order |
| `Blake2b.HeldBackBlock` | src/import/blake2b.c:265-268 | the held-back bytes, zero-filled, are the RFC's final block |
| `Blake2b.ChainPrefix` | src/import/blake2b.c:233-246 | chaining whole blocks does not depend on later data |
| `Blake2b.DigestOfPieces` | src/import/blake2b.c:122-277 | every cutting of a message into updates gives the keyed digest of section 3.3 of RFC 7693 |
| `Blake2b.OneShot` | src/import/blake2b.c:280-307 | digest and return code for all lengths, keyed or not |
| `SighashSpec.Preimage` | src/sighash.c:206-323 | the hashed concatenation has 296 bytes for any number of inputs |
| `FieldTables.PreimageFields` | src/sighash.c:206-323 | every field of the 296 bytes at its position |
| `FieldTables.OutpointStream` | src/sighash.c:78-87 | input k lies at byte 36k of the outpoint stream |
| `FieldTables.SequenceStream` | src/sighash.c:99-106 | input k lies at byte 8k of the sequence stream |
| `FieldTables.SigOpStream` | src/sighash.c:111-127 | the third stream is a 1 for each input |
| `FieldTables.OutputFields` | src/sighash.c:136-172 | value, version, script length and script of one output by position |
| `FieldTables.OutputStream` | src/sighash.c:129-175 | the outputs stream is the outputs' bytes in order |
| `FieldTables.Texts` | src/constants.h:66 | signing key and address prefixes are the ASCII texts |
| `Sighash.HashInit` | src/sighash.c:37-56 | a hash state that has absorbed exactly the padded key, for every size and key length the wrapper lets through, and a refusal for all others |
| `Sighash.HashFinalize` | src/sighash.c:63-69 | 32 digest bytes or a refusal that writes nothing |
| `Sighash.CalcPrevOutputsHash` | src/sighash.c:71-90 | digest of all outpoints, with nothing stale from the scratch |
| `Sighash.CalcSequencesHash` | src/sighash.c:92-109 | digest of all sequence numbers |
| `Sighash.CalcSigOpCountHash` | src/sighash.c:111-127 | digest of one byte 1 per input |
| `Sighash.CalcOutputsHash` | src/sighash.c:129-175 | digest of all outputs: value, version, length, script |
| `Sighash.CalcTxinScriptPublicKey` | src/sighash.c:177-187 | 34 script bytes over whatever the scratch held |
| `Sighash.FeedScript` | src/sighash.c:257-268 | the script length and the script reach the hash although the scratch is not cleared between them |
| `Sighash.CalcSighash` | src/sighash.c:189-326 | the keyed digest of exactly the preimage, in spite of reused buffers, inner hashes and the shared scratch |
| `SighashBinding.PrevOutputsInjective` | src/sighash.c:78-87 | the outpoint stream determines the outpoint list |
| `SighashBinding.SequencesInjective` | src/sighash.c:99-106 | the sequence stream determines the sequence list |
| `SighashBinding.OutputPrefixFree` | src/sighash.c:136-172 | an accepted output's bytes end in one place only, whatever follows |
| `SighashBinding.OutputsInjective` | src/sighash.c:136-172 | the output stream determines the list of accepted outputs, of any length |
| `SighashBinding.PreimageInjective` | src/sighash.c:206-323 | equal preimages have equal parts |
| `SighashBinding.SighashBinds` | src/sighash.c:189-326 | equal sighashes: version, outpoints, sequences, outputs, and the signing input's outpoint, value, sequence and key agree, or one of four named pairs of byte strings collides |
| `SighashBinding.AgreementGivesSameSighash` | src/sighash.c:189-326 | nothing else enters the sighash |
| `Checksum.StepLinear` | src/import/cashaddr.c:34-39 | the register step is linear over exclusive or |
| `Checksum.StepLowBits` | src/import/cashaddr.c:34-39 | the five bits shifted out are the low five bits of the result |
| `Checksum.StepInjective` | src/import/cashaddr.c:34-39 | no two register contents step to the same |
| `ChecksumBits.StepAgrees` | src/import/cashaddr.c:34-39 | the step on numbers is the step as it is written, on 64-bit words |
| `ChecksumField.StepCommutes` | src/import/cashaddr.c:34-39 | the step is linear over GF(32): it commutes with multiplying every digit by x modulo x^5 + x^3 + 1 |
| `Checksum.FoldLinear` | src/import/cashaddr.c:48-53 | start value and symbols contribute to the register independently |
| `Checksum.FoldPacks` | src/import/cashaddr.c:48-53 | up to eight symbols fed into an empty register just pack |
| `Checksum.PolyMod` | src/import/cashaddr.c:41-55 | folds the prefix up to its first NUL, separator, payload and eight zeros, then flips the lowest bit |
| `Checksum.CreateChecksum` | src/import/cashaddr.c:85-93 | the register's eight five-bit groups, first group first |
| `Checksum.ChecksumIsValid` | src/import/cashaddr.c:85-93 | payload and emitted checksum always verify |
| `Checksum.BurstDetected` | src/import/cashaddr.c:34-93 | two codewords of any length that agree outside eight consecutive symbols are equal |
| `Regroup.ShiftIn` | src/import/cashaddr.c:68-69 | the overflowing 32-bit accumulator keeps all pending bits |
| `Regroup.ConvertBits` | src/import/cashaddr.c:57-83 | with padding the zero-filled bit string in new groups; without, the whole groups, and 1 exactly when the rest is zero and shorter than a group read |
| `Regroup.SymbolsOfBytes` | src/import/cashaddr.c:57-83 | ceil(8n/5) symbols below 32 holding the bytes' bits and then zeros |
| `Regroup.RegroupRoundTrip` | src/import/cashaddr.c:57-83 | converting back without padding succeeds and returns the original bytes |
| `Regroup.ConvertThereAndBack` | src/import/cashaddr.c:57-83 | the loop run 8 to 5 with padding and 5 to 8 without returns 1 and the original bytes |
| `Regroup.UnpackPack` | src/import/cashaddr.c:57-83 | the reference grouping loses and invents no bit |
| `Cashaddr.SymbolRoundTrip` | src/import/cashaddr.c:32 | the charset is injective |
| `FieldTables.Alphabet` | src/import/cashaddr.c:32 | the charset is the published one |
| `Cashaddr.PayloadAndChecksum` | src/import/cashaddr.c:123-127 | payload and checksum symbols within the fixed buffers |
| `Cashaddr.AppendChars` | src/import/cashaddr.c:129-152 | one copying loop: all characters, or the empty string when the limit is reached |
| `Cashaddr.CashaddrEncode` | src/import/cashaddr.c:95-156 | the NUL-terminated text and its length, 0 exactly for an unknown version or too little room |
| `Cashaddr.EncodedIsCodeword` | src/import/cashaddr.c:95-156 | every emitted address verifies |
| `Cashaddr.AddressBurstDetected` | src/import/cashaddr.c:95-156 | two emitted addresses of equal length never differ only inside eight consecutive characters |
| `Cashaddr.EncodedInjective` | src/import/cashaddr.c:95-156 | the text determines version byte and hash |
| `AddressVector.PublishedAddress` | unit-tests/test_address.c:63-79 | version 8 and the published script hash encode to the published text |
| `AddressVector.PublishedScriptAddress` | unit-tests/test_address.c:63-79 | so the key's script address is that text |
| `Address.CompressPublicKey` | src/address.c:34-59 | the compressed key and its size, or 0 without writing |
| `Address.AddressFromPubkey` | src/address.c:61-109 | with room for 67 or 69 characters it always succeeds and writes exactly those |
| `Address.ScriptPublicKeyToAddress` | src/transaction/utils.c:41-96 | which scripts get an address, and which one |
| `Address.AddressIsText` | src/ui/bagl_display.c:214-223 | the address in its zeroed buffer is printed whole |
| `Address.AcceptedScriptHasAddress` | src/transaction/utils.c:41-96 | every accepted script gets "kaspa:" and charset characters, 69 in all for ECDSA and 67 otherwise |
| `AddressReading.AddressReads` | src/transaction/utils.c:41-96 | the bits behind "kaspa:" are version 0 and the key, 1 and parity byte and key, or 8 and the hash, by script form |
| `AddressReading.AddressStarts` | src/import/cashaddr.c:113-121 | Schnorr addresses start kaspa:q, ECDSA kaspa:qy, script hashes kaspa:p |
| `Address.NormalForm` | src/transaction/utils.c:54-88 | the key an address is made from, put back between its opcodes, is the script |
| `Address.AddressDeterminesScript` | src/transaction/utils.c:41-96 | accepted scripts have equal addresses exactly when they are equal up to the parity of the ECDSA prefix byte |
| `Address.AddressDeterminesKeyScript` | src/transaction/utils.c:75-81 | with prefix bytes 0x02 and 0x03 equal addresses mean equal scripts, across the three kinds |
| `Deserialize.OutputDeserialize` | src/transaction/deserialize.c:30-98 | status and stored output for every buffer, failing ones included |
| `Deserialize.ScriptDeserialize` | src/transaction/deserialize.c:36-97 | the three script forms and nothing else are stored |
| `Deserialize.InputDeserialize` | src/transaction/deserialize.c:100-135 | status and stored input for every buffer; the sequence number is never touched |
| `Deserialize.HeaderDeserialize` | src/transaction/deserialize.c:137-202 | status, structure and path for every buffer |
| `Deserialize.ChangeDeserialize` | src/transaction/deserialize.c:174-201 | change address and account, with the path written only for a hardened account |
| `FieldTables.AcceptedForms` | src/transaction/deserialize.c:36-97 | the accepted scripts by the numbers of their opcodes |
| `FieldTables.HeaderFields` | src/transaction/deserialize.c:137-202 | the header's fields by position |
| `FieldTables.InputChunkFields` | src/transaction/deserialize.c:100-135 | an input chunk's fields by position |
| `FieldTables.OutputChunkFields` | src/transaction/deserialize.c:30-98 | an output chunk's fields by position |
| `Wire.OutputAcceptedIsEncoded` | src/transaction/deserialize.c:30-98 | what the output parser accepts is the encoding of an accepted output, with no byte left |
| `Wire.OutputEncodedIsAccepted` | src/transaction/deserialize.c:30-98 | every accepted output's encoding parses back to its value and script |
| `Wire.InputAcceptedIsEncoded` | src/transaction/deserialize.c:100-135 | what the input parser accepts is the encoding of the stored input |
| `Wire.InputEncodedIsAccepted` | src/transaction/deserialize.c:100-135 | every input's encoding parses back |
| `Wire.HeaderAcceptedIsEncoded` | src/transaction/deserialize.c:137-202 | an accepted header is the encoding of a valid one, which structure and path then hold |
| `Wire.HeaderEncodedIsAccepted` | src/transaction/deserialize.c:137-202 | every valid header's encoding is accepted |
| `Serialize.HeaderSerialize` | src/transaction/serialize.c:32-53 | writes the header encoding, 13 bytes; refuses less than 9 and overruns 9 to 12 |
| `Serialize.InputSerialize` | src/transaction/serialize.c:55-76 | writes the input encoding, 46 bytes |
| `Serialize.OutputSerialize` | src/transaction/serialize.c:78-103 | writes value and script by the length rule of the first bytes; refuses less than 41 bytes, and which scripts and buffers it overruns |
| `Serialize.OverrunIff` | src/transaction/serialize.c:81-100 | an accepted output fits exactly in 42 or 43 bytes, whatever the check for 41 says |
| `Serialize.ScriptLengthsAgree` | src/sighash.c:151-164 | parser, serializer and outputs hash take the same script length |
| `Serialize.SerializedIsEncoded` | src/transaction/serialize.c:78-103 | an accepted output is written as its encoding, 42 or 43 bytes |
| `Validation.CalcFees` | src/transaction/utils.c:98-113 | the difference of the totals modulo 2^64, for any number of inputs and outputs |
| `Validation.InTotalSums` | src/transaction/utils.c:101-105 | the input total is the sum of the amounts, additive over lists |
| `Validation.OutTotalSums` | src/transaction/utils.c:107-110 | so is the output total |
| `Validation.FeeConservation` | src/transaction/utils.c:98-113 | fee and outputs together are the inputs modulo 2^64 |
| `Validation.ValidatedFee` | src/transaction/tx_validate.c:71-85 | after validation the fee is the difference of the wrapped totals without borrow, and exact if and only if both wrapped equally often |
| `Validation.OverspendCovered` | src/transaction/tx_validate.c:71-85 | an input of 5 passes the check against two outputs of 2^63, and the fee is then 5 |
| `Validation.Totals` | src/transaction/tx_validate.c:72-81 | the wrapping sums |
| `Validation.TxValidate` | src/transaction/tx_validate.c:30-88 | verdict, path and path length for every transaction |
| `SessionSafety.ReviewedFee` | src/transaction/tx_validate.c:71-85 | the fee the review shows is the difference of the wrapped totals, exact if and only if both wrapped equally often |
| `Session.Context.constructor` | src/app_main.c:38-54 | the zeroed context at power-up |
| `Session.Context.Clear` | src/handler/sign_tx.c:60-62 | clearing leaves nothing of the session behind |
| `Session.Context.CryptoSignTransaction` | src/crypto.c:58-123 | current input's path, key and sighash, and what each failure leaves |
| `Session.Context.HelperSendResponseSig` | src/helper/send_reponse.c:49-70 | the 100 response bytes, from which a host reads the fields back |
| `SessionSpec.ResponseRoundTrip` | src/helper/send_reponse.c:49-70 | has_more, index, signature and sighash are recovered from the response |
| `FieldTables.ResponseFields` | src/helper/send_reponse.c:49-70 | the response's fields by position |
| `Session.Context.SignInputAndSend` | src/handler/sign_tx.c:45-56 | a signature advances the index, an error ends the approval |
| `Session.Context.AddressShown` | src/ui/bagl_display.c:214-223 | the printed text is the address of the output's script |
| `Session.Context.UiDisplayTransaction` | src/ui/bagl_display.c:184-230 | the review appears only for a parsed transaction, and shows its first output's amount and address and its fee |
| `Session.Context.HandleStart` | src/handler/sign_tx.c:59-73 | the start step |
| `Session.Context.HandleOutputs` | src/handler/sign_tx.c:82-101 | the output step with its bounds checks |
| `Session.Context.StoreChunk` | src/handler/sign_tx.c:112-122 | an input chunk in its slot and the index after it |
| `Session.Context.HandleInputs` | src/handler/sign_tx.c:103-143 | the input step, including the review after the last chunk |
| `Session.Context.ValidateAndReview` | src/handler/sign_tx.c:134-142 | no review without a successful validation |
| `Session.Context.HandleNextSignature` | src/handler/sign_tx.c:144-151 | the next signature, or a cleared context when nothing is approved |
| `Session.Context.DispatchSignTx` | src/apdu/dispatcher.c:78-95 | the P1 and P2 gate in front of the handlers |
| `Session.Context.ValidateTransaction` | src/ui/action/validate.c:41-57 | the user's decision on a transaction |
| `Session.Context.ValidateOther` | src/ui/action/validate.c:59-74 | decisions on messages and addresses and their effect on the state |
| `Session.Context.GetPublicKey` | src/handler/get_public_key.c:42-84 | the cleared context with whatever path and length were read |
| `Session.Context.SignMessage` | src/handler/sign_msg.c:47-106 | the cleared context, with a path of length 5 once the message is parsed |
| `Session.Context.ApduDispatcher` | src/apdu/dispatcher.c:44-110 | every command's effect on the context |
| `Session.Context.Handle` | src/apdu/dispatcher.c:44-110 | every event takes the specified step and keeps the invariant |
| `Replies.StartReply` | src/handler/sign_tx.c:59-73 | P1_START is answered 0x9000 exactly for a serialized valid header, else 0xB005 |
| `Replies.OutputReply` | src/handler/sign_tx.c:82-101 | an output chunk is answered 0x9000, and counts, exactly if it is a serialized output and a slot is open |
| `Replies.OutputRefused` | src/transaction/deserialize.c:30-98 | why an output chunk is refused, by status word |
| `Replies.InputStoredIff` | src/handler/sign_tx.c:112-122 | an input chunk is kept exactly if it is a serialized input |
| `Replies.InputReply` | src/handler/sign_tx.c:103-132 | the answer to every input chunk but the last |
| `Replies.LastInputReply` | src/handler/sign_tx.c:134-142 | the answer to the last one: the review, or why there is none |
| `Replies.TransactionCommands` | src/apdu/dispatcher.c:78-95 | the commands that reach the transaction handlers, byte by byte |
| `Replies.RefusedRequest` | src/handler/sign_tx.c:144-149 | a request nothing was approved for wipes the session |
| `Replies.Rejected` | src/ui/action/validate.c:53-56 | a rejection ends the approval and keeps the transaction |
| `Replies.SigningFails` | src/handler/sign_tx.c:45-56 | every signing error ends the approval |
| `Replies.Refused` | src/apdu/dispatcher.c:44-110 | what the dispatcher refuses, and that it changes nothing |
| `SessionSpec.ParsedScript` | src/transaction/deserialize.c:68-87 | a chunk leaves a slot's script as it was or of an accepted form |
| `SessionSpec.SigningConsistent` | src/crypto.c:95-101 | in an approved context hashing reads no script past its buffer |
| `SessionSpec.StepConsistent` | src/handler/sign_tx.c:58-159 | every enabled event keeps the invariant |
| `SessionSpec.RunConsistent` | src/handler/sign_tx.c:58-159 | so does every run |
| `SessionSafety.SigningNeedsApproval` | src/handler/sign_tx.c:144-151 | only an approval and NEXT_SIGNATURE in an approved transaction context are answered with a signature |
| `SessionSafety.ReviewOnlyFromValidation` | src/handler/sign_tx.c:134-142 | a transaction review appears only by the step that validates |
| `SessionSafety.ApprovalOnlyFromDecision` | src/ui/action/validate.c:41-57 | no command or other decision makes a transaction approved |
| `SessionSafety.ApprovalSafety` | src/handler/sign_tx.c:58-159 | in every run a signature follows an approval of a validated review, with no reset and no other decision since |
| `SessionSafety.FullyParsedFreezes` | src/handler/sign_tx.c:82-126 | a fully parsed transaction survives every reset-free run unchanged |
| `SessionSafety.FrozenIffFullyParsed` | src/handler/sign_tx.c:82-126 | and only a fully parsed one does, with or without a review on screen |
| `SessionSafety.ApprovedIsSigned` | src/crypto.c:63-99 | all signatures of a session after that point are over that transaction |
| `SessionSafety.SignedIsApproved` | src/handler/sign_tx.c:144-151 | in every run the signed sighash is that of the transaction approved, if it was fully parsed at its approval |
| `SessionSafety.ReviewShowsStored` | src/ui/bagl_display.c:184-230 | the review shows the stored transaction's first amount, its address and the fee |
| `SessionSafety.SignedIsShown` | src/ui/bagl_display.c:184-230 | in every run a signature belongs to an approval of a review of the stored transaction, and is over that transaction if it was fully parsed |
| `OpenSlots.SwappedIsSigned` | src/handler/sign_tx.c:82-151 | with a slot open after an approval, one chunk and one request get a transaction signed that differs in an outpoint or output |
| `OpenSlots.SignsOnlyStoredIff` | src/handler/sign_tx.c:82-151 | an approved context signs nothing but its transaction if and only if it is fully parsed |
| `OpenSlots.SignedIsApprovedIff` | src/handler/sign_tx.c:82-151 | in every run, what was approved is all that is signed until the next decision or reset if and only if it was fully parsed when approved |
| `OpenSlots.EarlyRun` | src/handler/sign_tx.c:82-142 | five events from power-up lead to an approval with an output and an input slot open |
| `OpenSlots.SwappedFromPowerUp` | src/handler/sign_tx.c:82-151 | and two more to a signature over another transaction |
| `SessionSafety.SigningStep` | src/crypto.c:63-99 | a signing step signs the current input at its own path and changes nothing of the transaction |
| `SessionSafety.IndexCounts` | src/handler/sign_tx.c:51-52 | the signing index is the number of signatures since the start, modulo 256 |
| `SessionSafety.SignatureNumbering` | src/helper/send_reponse.c:53-57 | the n-th signature carries index n and count - n - 1, both modulo 256; for a declared input it is that input's, at 44'/111111'/account/type/index |
| `SessionSafety.SignsDeclaredIff` | src/crypto.c:63-73 | a signature is of a declared input if and only if the count before it, modulo 256, is below theirs |
| `SessionSafety.HostLoopCount` | src/helper/send_reponse.c:53-55 | has_more is first 0 with exactly as many signatures as inputs |
| `ChangeOutput.AcceptedStart` | src/handler/sign_tx.c:59-73 | SW_OK to P1_START means a valid header, fresh counters and its change address in the path |
| `ChangeOutput.StepKeepsChange` | src/transaction/tx_validate.c:41-69 | until an approval no chunk disturbs the change address in the path |
| `ChangeOutput.FirstApprovalPaysChange` | src/transaction/tx_validate.c:41-69 | the first approval of a session is of a transaction paying change to the header's change key, whatever chunks came before |
| `ChangeOutput.ApprovedPaysChange` | src/transaction/tx_validate.c:41-69 | so is every approval when P2_LAST comes only with the final declared input |
| `LaterApprovals.OpenSlotsEscape` | src/transaction/tx_validate.c:41-69 | with an output and an input slot open and another key at the stored path, a review of a transaction not paying the header's key can be had |
| `LaterApprovals.OverlongStores` | src/handler/sign_tx.c:112-122 | an input chunk with a byte too many is stored, refused and leaves its slot open |
| `LaterApprovals.SignUpTo` | src/crypto.c:63-73 | requests up to an input leave the path at that input's address |
| `LaterApprovals.AnyKeyEscapes` | src/transaction/tx_validate.c:41-69 | while signing is approved, any address of the account can take the place of the change address |
| `LaterApprovals.OneKeyPays` | src/transaction/tx_validate.c:41-69 | with one key in the account every later approval pays it |
| `LaterApprovals.OneLeftPays` | src/transaction/tx_validate.c:41-69 | without a signature and with the header's key at the path, the one review that is left pays it |
| `LaterApprovals.LaterPayIff` | src/transaction/tx_validate.c:41-69 | the exact condition, in a context such as an approval leaves, for all later approvals to pay the header's key |
| `LaterApprovals.EveryApprovalPaysIff` | src/transaction/tx_validate.c:41-69 | over whole sessions: the first approval pays it, and exactly when all later ones do |
| `OpenSlots.ChangeEscapes` | src/transaction/tx_validate.c:41-69 | a run from power-up in which a second approval pays its change to another key, whichever input is signed first |
| `HonestSession.OutputLands` | src/transaction/deserialize.c:30-98 | a serialized output arrives in a blank slot with its value and script over a cleared buffer |
| `HonestSession.WholeIsPlan` | src/handler/sign_tx.c:82-126 | the transaction a complete session leaves on the device is the one sent, with sequence numbers 0 |
| `HonestSession.ReviewIffPayable` | src/handler/sign_tx.c:58-143 | after a serialized header, its outputs and its inputs, from any earlier context and when no foreign call fails, the review is on screen if and only if the wrapped totals leave a fee and a second output pays the header's change key, and then shows the amount, address and fee sent |
| `HonestSession.OverspendShown` | src/transaction/tx_validate.c:71-85 | a session spending 2^64 from an input of 5 is reviewed, with a fee of 5 on screen |
| `HonestSession.EveryInputSigned` | src/handler/sign_tx.c:45-159 | when no foreign call fails, the approval of a payable transaction and the requests after it are answered with one signature per input, in order, each of that input's sighash at its own path |
| `HonestSession.OneTooMany` | src/handler/sign_tx.c:144-151 | one request more is answered with a signature for the slot behind the last declared input, announcing 255 more |
| `RefusedHeader.StartSignsIff` | src/handler/sign_tx.c:59-73 | a header, accepted or refused, can be followed by a signature if and only if the stored counts are 1 or 2 outputs and at least one input |
| `RefusedHeader.OverlongHeaderSigns` | src/handler/sign_tx.c:67-71 | a valid header with bytes behind it is refused, and a signature can follow |

## Left out

- Screens, menus and text formatting: the transaction review is modelled by its state check, its possible failure and the amount, address and fee it shows.
- Session.Context.ValidateOther: the contents of message signatures and public keys are not modelled, only the effect on state and screen.
- Session.Context.GetPublicKey: which paths are accepted, and the key that is sent, are the environment's.
- Session.Context.SignMessage: which messages are accepted, and the path they give, are the environment's.
- Session.Context.ApduDispatcher: the replies to commands other than SIGN_TX have no contents.
- Key derivation, Schnorr signing and random numbers: functions of an abstract device, with failures decided by the environment.
- Contents of GET_PUBLIC_KEY, SIGN_MESSAGE, GET_VERSION and GET_APP_NAME: only their effect on the context is modelled.
- The debug command, the ASCII check of `transaction_utils_check_encoding` and the status-word tables.
- Tree hashing (`last_node`) and the 16, 32 and 48-bit load and store helpers of BLAKE2b: unused by the app.
- The exits of `cashaddr_encode` on `*payload >> 5` and the failing returns behind SDK seeks that were checked before: unreachable, as the contracts show.
- Collision resistance of BLAKE2b: no property of the hash is assumed; `SighashBinding.SighashBinds` names the colliding strings instead.
- The signature's own validity: the model says what is signed at which path, not that the curve operation is correct.

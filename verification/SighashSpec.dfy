/** What is signed: the keyed digest of one fixed concatenation defined from the transaction. */
module SighashSpec {
  import opened Bytes
  import opened Transaction
  import Rfc7693

  /** "TransactionSigningHash" in ASCII. */
  const SIGNING_KEY: seq<byte> := [
    0x54, 0x72, 0x61, 0x6e, 0x73, 0x61, 0x63, 0x74, 0x69, 0x6f, 0x6e,
    0x53, 0x69, 0x67, 0x6e, 0x69, 0x6e, 0x67, 0x48, 0x61, 0x73, 0x68]

  function H(msg: seq<byte>): (d: seq<byte>)
    ensures |d| == 32
  {
    Rfc7693.Blake2b(SIGNING_KEY, 32, msg)
  }

  /** The script length calc_outputs_hash goes by: an 8-bit sum from the first byte. */
  function HashedScriptLen(s: ScriptBuffer): byte {
    if s[0] == OP_BLAKE2B then 35 else (s[0] as int + 2) % 256
  }

  /** The hashed bytes stay inside the script buffer. */
  predicate Hashable(o: Output) {
    HashedScriptLen(o.script) <= SCRIPT_BUFFER
  }

  function OutpointBytes(i: Input): seq<byte> {
    i.txId + LE(i.index, 4)
  }

  function PrevOutputsBytes(ins: seq<Input>): seq<byte> {
    if ins == [] then [] else PrevOutputsBytes(ins[..|ins| - 1]) + OutpointBytes(ins[|ins| - 1])
  }

  function SequencesBytes(ins: seq<Input>): seq<byte> {
    if ins == [] then [] else SequencesBytes(ins[..|ins| - 1]) + LE(ins[|ins| - 1].sequence, 8)
  }

  function SigOpBytes(ins: seq<Input>): seq<byte> {
    if ins == [] then [] else SigOpBytes(ins[..|ins| - 1]) + [1]
  }

  /** The hashed script bytes; a length past the buffer is ruled out by Hashable. */
  function HashedScript(s: ScriptBuffer): seq<byte> {
    if HashedScriptLen(s) <= SCRIPT_BUFFER then s[..HashedScriptLen(s)] else s
  }

  function OutputBytes(o: Output): seq<byte> {
    LE(o.value, 8) + [0, 0] + LE(HashedScriptLen(o.script), 8) + HashedScript(o.script)
  }

  function OutputsBytes(outs: seq<Output>): seq<byte> {
    if outs == [] then [] else OutputsBytes(outs[..|outs| - 1]) + OutputBytes(outs[|outs| - 1])
  }

  /** The declared slots exist and no hashed script runs past its buffer. */
  ghost predicate Sound(tx: Tx) {
    tx.InBounds() && forall k :: 0 <= k < tx.outputLen ==> Hashable(tx.outputs[k])
  }

  /** The signing input's own fields: outpoint, script version and length, script, value, sequence, sigop count. */
  function InputBytes(txin: Input, key: Bytes32): seq<byte> {
    txin.txId + LE(txin.index, 4) + [0, 0] + LE(34, 8) + ([0x20] + key + [OP_CHECKSIG])
    + LE(txin.value, 8) + LE(txin.sequence, 8) + [1]
  }

  /** The 296 bytes that are hashed. */
  function Preimage(tx: Tx, txin: Input, key: Bytes32): (p: seq<byte>)
    requires tx.InBounds()
    ensures |p| == 296
  {
    hide H;
    LE(tx.version, 2)
    + H(PrevOutputsBytes(tx.Ins())) + H(SequencesBytes(tx.Ins())) + H(SigOpBytes(tx.Ins()))
    + InputBytes(txin, key)
    + H(OutputsBytes(tx.Outs()))
    + Zeros(8) + Zeros(20) + Zeros(8) + Zeros(32) + [1]
  }

  function SigHash(tx: Tx, txin: Input, key: Bytes32): (d: seq<byte>)
    requires tx.InBounds()
    ensures |d| == 32
  {
    H(Preimage(tx, txin, key))
  }
}

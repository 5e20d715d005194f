/** The transaction structures of src/transaction/types.h. */
module Transaction {
  import opened Bytes

  const SCRIPT_BUFFER: nat := 40
  const MAX_OUTPUTS: nat := 2

  const OP_BLAKE2B: byte := 0xaa
  const OP_EQUAL: byte := 0x87
  const OP_CHECKSIG: byte := 0xac
  const OP_CHECKSIG_ECDSA: byte := 0xab

  type Bytes32 = s: seq<byte> | |s| == 32
    witness Zeros(32)
  type ScriptBuffer = s: seq<byte> | |s| == SCRIPT_BUFFER
    witness Zeros(SCRIPT_BUFFER)

  datatype Output = Output(value: u64, script: ScriptBuffer)

  datatype Input = Input(addressType: u8, addressIndex: u32, sequence: u64, value: u64, txId: Bytes32, index: u8)

  /** transaction_t: the counts are those of the header, the arrays may hold more slots. */
  datatype Tx = Tx(version: u16, account: u32, inputLen: nat, outputLen: nat, outputs: seq<Output>, inputs: seq<Input>)
  {
    /** The declared inputs and outputs lie inside the arrays. */
    predicate InBounds() {
      inputLen <= |inputs| && outputLen <= |outputs|
    }

    function Ins(): seq<Input>
      requires InBounds()
    {
      inputs[..inputLen]
    }

    function Outs(): seq<Output>
      requires InBounds()
    {
      outputs[..outputLen]
    }
  }

  /** The three script forms the output parser accepts, in the buffer that holds them. */
  predicate IsP2sh(s: ScriptBuffer) {
    s[0] == OP_BLAKE2B && s[1] == 0x20 && s[34] == OP_EQUAL
  }

  predicate IsSchnorr(s: ScriptBuffer) {
    s[0] == 0x20 && s[33] == OP_CHECKSIG
  }

  predicate IsEcdsa(s: ScriptBuffer) {
    s[0] == 0x21 && s[34] == OP_CHECKSIG_ECDSA
  }

  predicate IsAccepted(s: ScriptBuffer) {
    IsP2sh(s) || IsSchnorr(s) || IsEcdsa(s)
  }

  /** Length of an accepted script. */
  function ScriptSize(s: ScriptBuffer): nat {
    if IsSchnorr(s) then 34 else 35
  }

  /** The meaningful bytes of an accepted script. */
  function Script(s: ScriptBuffer): (r: seq<byte>)
  {
    s[..ScriptSize(s)]
  }

  /** transaction_t in memory. */
  class TransactionStruct {
    var version: u16
    var account: u32
    var inputLen: nat
    var outputLen: nat
    const outputs: array<Output>
    const inputs: array<Input>

    function View(): Tx
      reads this, outputs, inputs
    {
      Tx(version, account, inputLen, outputLen, outputs[..], inputs[..])
    }

    /** Zero-initialised, with room for maxInputs inputs. */
    constructor (maxInputs: nat)
      ensures fresh(outputs) && fresh(inputs)
      ensures View() == BlankTx(maxInputs)
    {
      version, account, inputLen, outputLen := 0, 0, 0, 0;
      outputs := new Output[MAX_OUTPUTS](_ => BLANK_OUTPUT);
      inputs := new Input[maxInputs](_ => BLANK_INPUT);
    }

    method Clear()
      requires outputs.Length == MAX_OUTPUTS
      modifies this, outputs, inputs
      ensures View() == BlankTx(inputs.Length)
    {
      Fill(outputs, BLANK_OUTPUT);
      Fill(inputs, BLANK_INPUT);
      version, account, inputLen, outputLen := 0, 0, 0, 0;
    }
  }

  /** memset of a whole array. */
  method Fill<T>(a: array<T>, v: T)
    modifies a
    ensures forall i :: 0 <= i < a.Length ==> a[i] == v
  {
    forall i | 0 <= i < a.Length {
      a[i] := v;
    }
  }

  const BLANK_OUTPUT: Output := Output(0, Zeros(SCRIPT_BUFFER))
  const BLANK_INPUT: Input := Input(0, 0, 0, 0, Zeros(32), 0)

  function BlankTx(maxInputs: nat): Tx {
    Tx(0, 0, 0, 0, seq(MAX_OUTPUTS, _ => BLANK_OUTPUT), seq(maxInputs, _ => BLANK_INPUT))
  }
}

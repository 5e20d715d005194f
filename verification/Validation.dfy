/** Amounts and the last check before the review: calc_fees and tx_validate_parsed_transaction, on values. */
module Validation {
  import opened Bytes
  import opened Transaction
  import opened Wire
  import opened Address

  type Signature = s: seq<byte> | |s| == 64
    witness Zeros(64)

  /** The secure element: the public key of each path, and its signatures, which also depend on a nonce. */
  datatype Device = Device(pub: Path -> PublicKey, sign: (Path, Bytes32, nat) -> Signature)

  function InTotal(ins: seq<Input>): nat {
    if ins == [] then 0 else InTotal(ins[..|ins| - 1]) + ins[|ins| - 1].value
  }

  function OutTotal(outs: seq<Output>): nat {
    if outs == [] then 0 else OutTotal(outs[..|outs| - 1]) + outs[|outs| - 1].value
  }

  /** The totals are the sums of the amounts: of nothing, of one slot, and of two lists joined. */
  lemma {:induction false} InTotalSums(a: seq<Input>, b: seq<Input>, i: Input)
    ensures InTotal([]) == 0 && InTotal([i]) == i.value
    ensures InTotal(a + b) == InTotal(a) + InTotal(b)
    decreases |b|
  {
    assert [i][..0] == [];
    if b == [] {
      assert a + b == a;
    } else {
      var n := |b| - 1;
      InTotalSums(a, b[..n], i);
      assert (a + b)[..|a| + n] == a + b[..n];
    }
  }

  lemma {:induction false} OutTotalSums(a: seq<Output>, b: seq<Output>, o: Output)
    ensures OutTotal([]) == 0 && OutTotal([o]) == o.value
    ensures OutTotal(a + b) == OutTotal(a) + OutTotal(b)
    decreases |b|
  {
    assert [o][..0] == [];
    if b == [] {
      assert a + b == a;
    } else {
      var n := |b| - 1;
      OutTotalSums(a, b[..n], o);
      assert (a + b)[..|a| + n] == a + b[..n];
    }
  }

  /** A sum as a uint64_t holds it. */
  function Wrap(x: int): u64 {
    x % TWO_64
  }

  lemma WrapShift(x: int, q: int)
    ensures Wrap(x + q * TWO_64) == Wrap(x)
  {
  }

  lemma WrapStep(a: int, b: u64)
    ensures Wrap(Wrap(a) + b) == Wrap(a + b) && Wrap(Wrap(a) - b) == Wrap(a - b)
  {
    var q := a / TWO_64;
    assert Wrap(a) == a - q * TWO_64;
    hide Wrap;
    WrapShift(a + b, -q);
    WrapShift(a - b, -q);
  }

  lemma WrapDifference(a: nat, b: nat)
    requires Wrap(a) >= Wrap(b)
    ensures Wrap(a - b) == Wrap(a) - Wrap(b)
  {
  }

  lemma WrapExact(a: nat)
    ensures a < TWO_64 ==> Wrap(a) == a
  {
  }

  lemma WrapBack(a: int, b: nat)
    ensures Wrap(Wrap(a - b) + b) == Wrap(a)
  {
  }

  /** calc_fees: 64-bit sums that wrap around. */
  method CalcFees(ins: seq<Input>, outs: seq<Output>) returns (fees: u64)
    ensures fees == Wrap(InTotal(ins) - OutTotal(outs))
  {
    hide Wrap;
    fees := 0;
    WrapExact(0);
    var i := 0;
    while i < |ins|
      invariant 0 <= i <= |ins| && fees == Wrap(InTotal(ins[..i]))
    {
      assert ins[..i + 1][..i] == ins[..i];
      WrapStep(InTotal(ins[..i]), ins[i].value);
      fees := Wrap(fees + ins[i].value);
      i := i + 1;
    }
    assert ins[..i] == ins;
    i := 0;
    while i < |outs|
      invariant 0 <= i <= |outs| && fees == Wrap(InTotal(ins) - OutTotal(outs[..i]))
    {
      assert outs[..i + 1][..i] == outs[..i];
      WrapStep(InTotal(ins) - OutTotal(outs[..i]), outs[i].value);
      fees := Wrap(fees - outs[i].value);
      i := i + 1;
    }
    assert outs[..i] == outs;
  }

  /** Conservation: fees and outputs together are the inputs, modulo 2^64. */
  lemma FeeConservation(ins: seq<Input>, outs: seq<Output>, fees: u64)
    requires fees == Wrap(InTotal(ins) - OutTotal(outs))
    ensures Wrap(fees + OutTotal(outs)) == Wrap(InTotal(ins))
  {
    WrapBack(InTotal(ins), OutTotal(outs));
  }

  /** The wrapped totals compare as the validation requires. */
  predicate Covers(ins: seq<Input>, outs: seq<Output>) {
    Wrap(InTotal(ins)) >= Wrap(OutTotal(outs))
  }

  /**
   * After validation the fee is the plain difference of the wrapped totals. It is exact if and only if both totals
   * wrapped equally often, not at all for instance.
   */
  lemma ValidatedFee(ins: seq<Input>, outs: seq<Output>, fees: u64)
    requires Covers(ins, outs) && fees == Wrap(InTotal(ins) - OutTotal(outs))
    ensures fees == Wrap(InTotal(ins)) - Wrap(OutTotal(outs))
    ensures fees == InTotal(ins) - OutTotal(outs) <==> InTotal(ins) / TWO_64 == OutTotal(outs) / TWO_64
    ensures InTotal(ins) < TWO_64 && OutTotal(outs) < TWO_64 ==> fees == InTotal(ins) - OutTotal(outs)
  {
    WrapDifference(InTotal(ins), OutTotal(outs));
    WrapQuotient(InTotal(ins));
    WrapQuotient(OutTotal(outs));
    hide Wrap;
  }

  lemma WrapQuotient(x: nat)
    ensures Wrap(x) == x - x / TWO_64 * TWO_64 && (x < TWO_64 ==> x / TWO_64 == 0)
  {
  }

  /** Two outputs of half the range each wrap to nothing, which any input covers: five units pay for 2^64. */
  lemma {:induction false} OverspendCovered(ins: seq<Input>, outs: seq<Output>)
    requires |ins| == 1 && |outs| == 2 && ins[0].value == 5
    requires outs[0].value == outs[1].value == 0x8000_0000_0000_0000
    ensures Covers(ins, outs) && InTotal(ins) == 5 < OutTotal(outs) == TWO_64
    ensures Wrap(InTotal(ins) - OutTotal(outs)) == 5
  {
    assert ins[..0] == [] && outs[..1][..0] == [];
    assert OutTotal(outs[..1]) == outs[0].value;
  }

  /** The path the change key is looked up at: the last two elements are those already stored. */
  function ChangePath(tx: Tx, path: Path): Path {
    [PURPOSE, COIN_TYPE, tx.account, path[3], path[4]]
  }

  /** Whether the second output, if any, pays to the change key. derived tells whether key derivation worked. */
  predicate ChangeMatches(dev: Device, tx: Tx, path: Path, derived: bool)
    requires tx.InBounds()
  {
    tx.outputLen == 2 ==>
      tx.outputs[1].script[0] == 0x20 && derived && dev.pub(ChangePath(tx, path))[..32] == tx.outputs[1].script[1..33]
  }

  /** What tx_validate_parsed_transaction decides. */
  predicate Validated(dev: Device, tx: Tx, path: Path, derived: bool)
    requires tx.InBounds()
  {
    1 <= tx.outputLen <= 2 && tx.inputLen >= 1 && ChangeMatches(dev, tx, path, derived) && Covers(tx.Ins(), tx.Outs())
  }

  /** The path it leaves behind. */
  function PathAfterValidation(tx: Tx, path: Path): Path
    requires tx.InBounds()
  {
    if tx.outputLen == 2 && tx.inputLen >= 1 && tx.outputs[1].script[0] == 0x20 then ChangePath(tx, path) else path
  }

  /** The two wrapping sums of tx_validate_parsed_transaction. */
  method Totals(tx: Tx) returns (inputTotal: u64, outputTotal: u64)
    requires tx.InBounds()
    ensures inputTotal == Wrap(InTotal(tx.Ins())) && outputTotal == Wrap(OutTotal(tx.Outs()))
  {
    hide Wrap;
    WrapExact(0);
    inputTotal, outputTotal := 0, 0;
    var i := 0;
    while i < tx.inputLen
      invariant 0 <= i <= tx.inputLen && inputTotal == Wrap(InTotal(tx.Ins()[..i]))
    {
      assert tx.Ins()[..i + 1][..i] == tx.Ins()[..i];
      WrapStep(InTotal(tx.Ins()[..i]), tx.inputs[i].value);
      inputTotal := Wrap(inputTotal + tx.inputs[i].value);
      i := i + 1;
    }
    assert tx.Ins()[..i] == tx.Ins();
    i := 0;
    while i < tx.outputLen
      invariant 0 <= i <= tx.outputLen && outputTotal == Wrap(OutTotal(tx.Outs()[..i]))
    {
      assert tx.Outs()[..i + 1][..i] == tx.Outs()[..i];
      WrapStep(OutTotal(tx.Outs()[..i]), tx.outputs[i].value);
      outputTotal := Wrap(outputTotal + tx.outputs[i].value);
      i := i + 1;
    }
    assert tx.Outs()[..i] == tx.Outs();
  }

  /** tx_validate_parsed_transaction, with the global path and path length. */
  method TxValidate(dev: Device, tx: Tx, path: array<u32>, derived: bool, pathLen: u8) returns (ok: bool, newPathLen: u8)
    requires tx.InBounds() && path.Length == 5
    modifies path
    ensures ok == Validated(dev, tx, old(path[..]), derived)
    ensures path[..] == PathAfterValidation(tx, old(path[..]))
    ensures newPathLen == if tx.outputLen == 2 && tx.inputLen >= 1 && tx.outputs[1].script[0] == 0x20 then 5 else pathLen
  {
    hide Wrap;
    newPathLen := pathLen;
    if tx.outputLen > 2 || tx.outputLen < 1 {
      return false, newPathLen;
    }
    if tx.inputLen < 1 {
      return false, newPathLen;
    }
    if tx.outputLen == 2 {
      var change := tx.outputs[1];
      if change.script[0] != 0x20 {
        return false, newPathLen;
      }
      path[0] := 0x8000002C;
      path[1] := 0x8001b207;
      path[2] := tx.account;
      newPathLen := 5;
      assert path[..] == ChangePath(tx, old(path[..]));
      if !(derived && dev.pub(path[..])[..32] == change.script[1..33]) {
        return false, newPathLen;
      }
    }
    var inputTotal, outputTotal := Totals(tx);
    if inputTotal < outputTotal {
      return false, newPathLen;
    }
    return true, newPathLen;
  }
}

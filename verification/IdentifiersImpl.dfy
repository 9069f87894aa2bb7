/** Identifiers as the code computes them: one streaming hasher per identifier, fed piece by piece. */
module IdentifiersImpl {
  import opened Common
  import opened Sha256
  import opened Sha256Impl
  import opened Serialization
  import opened Identifiers

  /** The digest that a hasher built on `f` computes. */
  function Sha(f: Transform): Digest { (m: seq<byte>) => HashWith(f, m) }

  method ComputeTxId(f: Transform, tx: FullTx) returns (id: Hash)
    requires tx.Sized()
    ensures id == TxId(Sha(f), tx)
  {
    ConcatFew(InputsBytes(tx), OutputsBytes(tx), []);
    id := HashParts(f, [InputsBytes(tx), OutputsBytes(tx)]);
  }

  method HashInput(f: Transform, i: Input) returns (id: Hash)
    ensures id == InputHash(Sha(f), i)
  {
    ConcatFew(InputBytes(i), [], []);
    id := HashParts(f, [InputBytes(i)]);
  }

  method UhsIdFromOutput(f: Transform, entropy: Hash, i: u64, o: Output) returns (id: Hash)
    ensures id == UhsId(Sha(f), entropy, i, o)
  {
    ConcatFew(entropy, LittleEndian(i, 8), OutputBytes(o));
    id := HashParts(f, [entropy, LittleEndian(i, 8), OutputBytes(o)]);
  }

  method HashInputs(f: Transform, ins: seq<Input>) returns (ids: seq<Hash>)
    ensures ids == InputIds(Sha(f), ins)
  {
    ids := [];
    for k := 0 to |ins|
      invariant ids == InputIds(Sha(f), ins[..k])
    {
      InputIdsSnoc(Sha(f), ins, k);
      var i := HashInput(f, ins[k]);
      ids := ids + [i];
    }
    assert ins[..|ins|] == ins;
  }

  method HashOutputs(f: Transform, id: Hash, outs: seq<Output>) returns (ids: seq<Hash>)
    requires |outs| < U64_RANGE
    ensures ids == OutputIds(Sha(f), id, outs)
  {
    ids := [];
    for k := 0 to |outs|
      invariant ids == OutputIds(Sha(f), id, outs[..k])
    {
      OutputIdsSnoc(Sha(f), id, outs, k);
      var o := UhsIdFromOutput(f, id, k, outs[k]);
      ids := ids + [o];
    }
    assert outs[..|outs|] == outs;
  }

  lemma InputIdsSnoc(h: Digest, ins: seq<Input>, k: nat)
    requires k < |ins|
    ensures InputIds(h, ins[..k + 1]) == InputIds(h, ins[..k]) + [InputHash(h, ins[k])]
  {
  }

  lemma OutputIdsSnoc(h: Digest, id: Hash, outs: seq<Output>, k: nat)
    requires k < |outs| < U64_RANGE
    ensures OutputIds(h, id, outs[..k + 1]) == OutputIds(h, id, outs[..k]) + [UhsId(h, id, k, outs[k])]
  {
  }

  /** The compact form of a transaction; output `k` of it can be spent by the hash of the input made from
      output `k`. */
  method MakeCompact(f: Transform, tx: FullTx) returns (c: CompactTx)
    requires tx.Sized()
    ensures c == Compact(Sha(f), tx)
    ensures forall k | 0 <= k < |tx.outputs| ::
      c.outputs[k] == InputHash(Sha(f), Spending(Sha(f), tx, k))
  {
    var id := ComputeTxId(f, tx);
    var inputs := HashInputs(f, tx.inputs);
    var outputs := HashOutputs(f, id, tx.outputs);
    c := CompactTx(id, inputs, outputs, map[]);
    Agree(Sha(f), tx);
  }

  lemma Agree(h: Digest, tx: FullTx)
    requires tx.Sized()
    ensures forall k | 0 <= k < |tx.outputs| :: Compact(h, tx).outputs[k] == InputHash(h, Spending(h, tx, k))
  {
    forall k | 0 <= k < |tx.outputs|
      ensures Compact(h, tx).outputs[k] == InputHash(h, Spending(h, tx, k))
    {
      UhsIdsAgree(h, tx, k);
    }
  }
}

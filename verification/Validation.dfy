/** The checks a sentinel makes before it signs a transaction. */
module Validation {
  import opened Common
  import opened Identifiers

  datatype Problem =
    | NoInputs
    | NoOutputs
    | MissingWitness
    | AsymmetricValues
    | ValueOverflow
    | Duplicate(index: nat)
    | ZeroInput(index: nat)
    | ZeroOutput(index: nat)
    | BadWitness(index: nat)

  /** Whether witness `i` of the transaction satisfies the commitment of input `i`; signatures are not
      looked into. */
  type WitnessCheck = (FullTx, nat) -> bool

  // ---------------------------------------------------------------- what the checks are for

  function Sum(values: seq<u64>): nat {
    if values == [] then 0 else Sum(values[..|values| - 1]) + values[|values| - 1]
  }

  function InputValues(tx: FullTx): (v: seq<u64>)
    ensures |v| == |tx.inputs|
  {
    seq(|tx.inputs|, k requires 0 <= k < |tx.inputs| => tx.inputs[k].data.value)
  }

  function OutputValues(outs: seq<Output>): (v: seq<u64>)
    ensures |v| == |outs|
  {
    seq(|outs|, k requires 0 <= k < |outs| => outs[k].value)
  }

  function Prevouts(tx: FullTx): (p: seq<OutPoint>)
    ensures |p| == |tx.inputs|
  {
    seq(|tx.inputs|, k requires 0 <= k < |tx.inputs| => tx.inputs[k].prevout)
  }

  predicate Positive(values: seq<u64>) {
    forall k | 0 <= k < |values| :: values[k] > 0
  }

  /** True sums, not machine sums. */
  predicate Balanced(tx: FullTx) {
    Sum(InputValues(tx)) == Sum(OutputValues(tx.outputs)) < U64_RANGE
  }

  /** Everything but the witnesses. */
  predicate WellFormed(tx: FullTx) {
    && tx.inputs != [] && tx.outputs != [] && |tx.witnesses| == |tx.inputs|
    && Distinct(Prevouts(tx))
    && Positive(InputValues(tx)) && Positive(OutputValues(tx.outputs))
    && Balanced(tx)
  }

  predicate Acceptable(w: WitnessCheck, tx: FullTx) {
    WellFormed(tx) && forall k | 0 <= k < |tx.witnesses| :: w(tx, k)
  }

  /** A reported problem is a fact about the transaction. */
  predicate Explains(w: WitnessCheck, tx: FullTx, p: Problem) {
    match p
    case NoInputs => tx.inputs == []
    case NoOutputs => tx.outputs == []
    case MissingWitness => |tx.witnesses| != |tx.inputs|
    case AsymmetricValues => Sum(InputValues(tx)) != Sum(OutputValues(tx.outputs))
    case ValueOverflow => Sum(InputValues(tx)) >= U64_RANGE || Sum(OutputValues(tx.outputs)) >= U64_RANGE
    case Duplicate(k) => k < |tx.inputs| && Distinct(Prevouts(tx)[..k]) && Prevouts(tx)[k] in Prevouts(tx)[..k]
    case ZeroInput(k) => k < |tx.inputs| && InputValues(tx)[k] == 0
    case ZeroOutput(k) => k < |tx.outputs| && OutputValues(tx.outputs)[k] == 0
    case BadWitness(k) => k < |tx.witnesses| && !w(tx, k)
  }

  lemma {:induction false} PrefixSum(values: seq<u64>, k: nat)
    requires k <= |values|
    ensures Sum(values[..k]) <= Sum(values)
  {
    if k == |values| {
      assert values[..k] == values;
    } else {
      var init := values[..|values| - 1];
      PrefixSum(init, k);
      assert init[..k] == values[..k];
    }
  }

  // ---------------------------------------------------------------- the checks

  /** Adds up with 64-bit wrap-around and stops when a sum does not grow. It gets to the end exactly when
      there is no zero and the true sum fits, and then the machine sum is the true sum. */
  method CheckedTotal(values: seq<u64>) returns (total: Option<u64>)
    ensures total.Some? <==> Positive(values) && Sum(values) < U64_RANGE
    ensures total.Some? ==> total.value == Sum(values)
  {
    var acc: u64 := 0;
    for k := 0 to |values|
      invariant acc == Sum(values[..k]) && Positive(values[..k])
    {
      assert values[..k + 1][..k] == values[..k];
      PrefixSum(values, k + 1);
      if (acc + values[k]) % U64_RANGE <= acc {
        return None;
      }
      acc := (acc + values[k]) % U64_RANGE;
    }
    assert values[..|values|] == values;
    return Some(acc);
  }

  method CheckInOutSet(tx: FullTx) returns (p: Option<Problem>)
    ensures p.None? <==> Positive(InputValues(tx)) && Positive(OutputValues(tx.outputs)) && Balanced(tx)
    ensures p.Some? ==> p.value.ValueOverflow? || p.value.AsymmetricValues?
    ensures p == Some(ValueOverflow) <==>
      !Positive(InputValues(tx)) || !Positive(OutputValues(tx.outputs)) ||
      Sum(InputValues(tx)) >= U64_RANGE || Sum(OutputValues(tx.outputs)) >= U64_RANGE
    ensures p == Some(AsymmetricValues) ==> Sum(InputValues(tx)) != Sum(OutputValues(tx.outputs))
  {
    var input := CheckedTotal(InputValues(tx));
    if input.None? {
      return Some(ValueOverflow);
    }
    var output := CheckedTotal(OutputValues(tx.outputs));
    if output.None? {
      return Some(ValueOverflow);
    }
    if input.value != output.value {
      return Some(AsymmetricValues);
    }
    return None;
  }

  method CheckInputSet(tx: FullTx) returns (p: Option<Problem>)
    ensures p.None? <==> Distinct(Prevouts(tx))
    ensures p.Some? ==> p.value.Duplicate?
    ensures p.Some? ==>
      var k := p.value.index;
      k < |tx.inputs| && Distinct(Prevouts(tx)[..k]) && Prevouts(tx)[k] in Prevouts(tx)[..k]
  {
    var seen: set<OutPoint> := {};
    ghost var all := Prevouts(tx);
    for k := 0 to |tx.inputs|
      invariant Distinct(all[..k]) && seen == set p | p in all[..k]
    {
      assert all[..k + 1] == all[..k] + [all[k]];
      if tx.inputs[k].prevout in seen {
        assert all[k] in all[..k];
        return Some(Duplicate(k));
      }
      seen := seen + {tx.inputs[k].prevout};
    }
    assert all[..|all|] == all;
    return None;
  }

  method CheckStructure(w: WitnessCheck, tx: FullTx) returns (p: Option<Problem>)
    ensures p.None? <==>
      tx.inputs != [] && tx.outputs != [] && |tx.witnesses| == |tx.inputs| && Distinct(Prevouts(tx))
    ensures p.Some? ==> Explains(w, tx, p.value)
  {
    if tx.inputs == [] { return Some(NoInputs); }
    if tx.outputs == [] { return Some(NoOutputs); }
    if |tx.inputs| != |tx.witnesses| { return Some(MissingWitness); }
    p := CheckInputSet(tx);
  }

  /** A transaction passes exactly when it is acceptable; otherwise the report is true of it. */
  method CheckTx(w: WitnessCheck, tx: FullTx) returns (p: Option<Problem>)
    ensures p.None? <==> Acceptable(w, tx)
    ensures p.Some? ==> Explains(w, tx, p.value)
  {
    p := CheckStructure(w, tx);
    if p.Some? { return; }
    for k := 0 to |tx.inputs|
      invariant forall j | 0 <= j < k :: InputValues(tx)[j] > 0
    {
      if tx.inputs[k].data.value < 1 {
        assert InputValues(tx)[k] == 0;
        return Some(ZeroInput(k));
      }
    }
    for k := 0 to |tx.outputs|
      invariant forall j | 0 <= j < k :: OutputValues(tx.outputs)[j] > 0
    {
      if tx.outputs[k].value < 1 {
        assert OutputValues(tx.outputs)[k] == 0;
        return Some(ZeroOutput(k));
      }
    }
    p := CheckInOutSet(tx);
    if p.Some? { return; }
    for k := 0 to |tx.witnesses|
      invariant forall j | 0 <= j < k :: w(tx, j)
    {
      if !w(tx, k) {
        return Some(BadWitness(k));
      }
    }
    return None;
  }
}

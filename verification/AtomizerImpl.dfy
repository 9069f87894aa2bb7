/** The atomizer as the mutable object that the state machine owns. */
module AtomizerImpl {
  import opened Common
  import Spec = Atomizer
  type Pending = Spec.Pending

  class Atomizer {
    var depth: nat
    var height: nat
    var complete: seq<CompactTx>
    var spent: seq<set<Hash>>
    var txs: seq<map<Hash, Pending>>

    ghost function State(): Spec.State
      reads this
    {
      Spec.State(depth, height, complete, spent, txs)
    }

    constructor (height: nat, depth: nat)
      requires depth + 1 < U64_RANGE && height < U64_RANGE
      ensures State() == Spec.Initial(depth).(height := height) && State().Valid()
    {
      this.depth := depth;
      this.height := height;
      complete := [];
      spent := seq(depth + 1, _ => {});
      txs := seq(depth + 1, _ => map[]);
    }

    /** Ids of `tx` found in the window slots 0 to `range`. */
    method CheckStxoCache(tx: CompactTx, range: nat) returns (clashes: set<Hash>)
      requires State().Valid() && (range <= depth || tx.inputs == [])
      ensures clashes == Spec.Clashes(spent, tx.inputs, range)
    {
      clashes := {};
      var offset := 0;
      while offset <= range
        invariant offset <= range + 1
        invariant clashes == Spec.ClashesBelow(spent, tx.inputs, offset)
      {
        ghost var before := clashes;
        for k := 0 to |tx.inputs|
          invariant clashes == before + set x | x in tx.inputs[..k] && offset < |spent| && x in spent[offset]
        {
          if tx.inputs[k] in spent[offset] {
            clashes := clashes + {tx.inputs[k]};
          }
        }
        assert tx.inputs[..|tx.inputs|] == tx.inputs;
        offset := offset + 1;
      }
    }

    method AddToStxoCache(tx: CompactTx)
      requires State().Valid()
      modifies this`spent
      ensures spent == old(spent)[0 := old(spent)[0] + tx.InputSet()]
    {
      for k := 0 to |tx.inputs|
        invariant |spent| == depth + 1
        invariant spent[1..] == old(spent)[1..]
        invariant spent[0] == old(spent)[0] + set x | x in tx.inputs[..k]
      {
        spent := spent[0 := spent[0] + {tx.inputs[k]}];
      }
      assert tx.inputs[..|tx.inputs|] == tx.inputs;
    }

    method InsertComplete(oldest: nat, tx: CompactTx) returns (err: Option<TxError>)
      requires State().Valid()
      modifies this
      ensures (State(), err) == Spec.InsertComplete(old(State()), oldest, tx)
    {
      var offset := Sub64(height, oldest);
      if offset > depth && tx.inputs != [] {
        return Some(TxError(tx.id, StxoRange));
      }
      var clashes := CheckStxoCache(tx, offset);
      if clashes != {} {
        return Some(TxError(tx.id, InputsSpent(clashes)));
      }
      AddToStxoCache(tx);
      complete := complete + [tx];
      return None;
    }

    /** The error of each notification that the rotation is about to drop, in any order. */
    method EvictionErrors() returns (errs: seq<TxError>)
      requires State().Valid()
      ensures (set e | e in errs) == Spec.Evicted(State())
      ensures |errs| == |txs[depth]|
    {
      errs := [];
      var slot := txs[depth];
      var left := slot.Keys;
      while left != {}
        invariant left <= slot.Keys
        invariant forall e :: e in errs <==> e.kind == Incomplete && e.id in slot && e.id !in left
        invariant |errs| + |left| == |slot|
        decreases left
      {
        var id :| id in left;
        left := left - {id};
        errs := errs + [TxError(id, Incomplete)];
      }
    }

    /** Moves every slot one place towards the old end, and empties slot 0. */
    method RotateSlots()
      requires State().Valid()
      modifies `spent, `txs
      ensures spent == [{}] + old(spent)[..depth]
      ensures txs == [map[]] + old(txs)[..depth]
    {
      var i := depth;
      Unshifted(spent, depth);
      Unshifted(txs, depth);
      while i > 0
        invariant 0 <= i <= depth && |old(spent)| == |old(txs)| == depth + 1
        invariant spent == Shifted(old(spent), depth, i) && txs == Shifted(old(txs), depth, i)
      {
        ShiftOne(old(spent), depth, i);
        ShiftOne(old(txs), depth, i);
        spent := spent[i := spent[i - 1]];
        txs := txs[i := txs[i - 1]];
        i := i - 1;
      }
      ShiftAll(old(spent), depth, {});
      ShiftAll(old(txs), depth, map[]);
      spent := spent[0 := {}];
      txs := txs[0 := map[]];
    }

    method MakeBlock() returns (blk: Block, errs: seq<TxError>)
      requires State().Valid() && height + 1 < U64_RANGE
      modifies this
      ensures State() == Spec.Rotate(old(State()))
      ensures blk == Spec.NextBlock(old(State()))
      ensures (set e | e in errs) == Spec.Evicted(old(State())) && |errs| == old(|txs[depth]|)
    {
      var swapped := complete;
      complete := [];
      height := height + 1;
      errs := EvictionErrors();
      RotateSlots();
      blk := Block(height, swapped);
    }

    /** Records one shard notification and, when it completes its transaction, moves that to the block. */
    method Insert(blockHeight: nat, tx: CompactTx, attested: set<nat>) returns (err: Option<TxError>)
      requires State().Valid() && Spec.InBounds(State(), blockHeight, tx)
      modifies this
      ensures (State(), err) == Spec.Insert(old(State()), blockHeight, tx, attested)
    {
      var offset := Sub64(height, blockHeight);
      if offset > depth && tx.inputs != [] {
        return Some(TxError(tx.id, StxoRange));
      }
      var slot: map<Hash, Pending> := txs[offset];
      if tx.id !in slot {
        slot := slot[tx.id := Spec.Pending(tx, attested)];
      } else {
        slot := slot[tx.id := Spec.Pending(slot[tx.id].tx, slot[tx.id].attested + attested)];
      }
      txs := txs[offset := slot];
      assert State() == Spec.Record(old(State()), offset, tx, attested);

      var total, oldest := GatherAttestations(tx.id);
      assert offset in Spec.Holders(txs, tx.id, |txs|);
      var stored := txs[offset][tx.id].tx;
      if |total| == |stored.inputs| {
        var clashes := CheckStxoCache(stored, oldest);
        if clashes != {} {
          return Some(TxError(stored.id, InputsSpent(clashes)));
        }
        AddToStxoCache(stored);
        complete := complete + [txs[oldest][tx.id].tx];
        EraseFromSlots(tx.id);
      }
      return None;
    }

    /** Every attested index for `id` in any slot, and the oldest slot that holds it. */
    method GatherAttestations(id: Hash) returns (total: set<nat>, oldest: nat)
      requires State().Valid()
      ensures total == Spec.Attested(txs, id, |txs|)
      ensures oldest == Spec.OldestHolder(txs, id, |txs|)
    {
      total, oldest := {}, 0;
      for offset := 0 to depth + 1
        invariant total == Spec.Attested(txs, id, offset)
        invariant oldest == Spec.OldestHolder(txs, id, offset)
      {
        if id in txs[offset] {
          total := total + txs[offset][id].attested;
          oldest := offset;
        }
      }
    }

    method EraseFromSlots(id: Hash)
      requires State().Valid()
      modifies this`txs
      ensures txs == Spec.Forget(old(txs), id)
    {
      for offset := 0 to depth + 1
        invariant |txs| == depth + 1
        invariant forall o | 0 <= o < offset :: txs[o] == old(txs)[o] - {id}
        invariant forall o | offset <= o <= depth :: txs[o] == old(txs)[o]
      {
        txs := txs[offset := txs[offset] - {id}];
      }
    }
  }

  /** `s` once slots `i + 1` to `n` have been moved. */
  ghost function Shifted<T>(s: seq<T>, n: nat, i: nat): (r: seq<T>)
    requires |s| == n + 1 && i <= n
    ensures |r| == n + 1
  {
    s[..i + 1] + s[i..n]
  }

  lemma Unshifted<T>(s: seq<T>, n: nat)
    requires |s| == n + 1
    ensures Shifted(s, n, n) == s
  {
  }

  lemma ShiftOne<T>(s: seq<T>, n: nat, i: nat)
    requires |s| == n + 1 && 0 < i <= n
    ensures var r := Shifted(s, n, i); r[i := r[i - 1]] == Shifted(s, n, i - 1)
  {
  }

  lemma ShiftAll<T>(s: seq<T>, n: nat, x: T)
    requires |s| == n + 1
    ensures Shifted(s, n, 0)[0 := x] == [x] + s[..n]
  {
  }
}

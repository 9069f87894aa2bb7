/** A shard: the part of the UHS whose ids fall in one range of first bytes. */
module Shard {
  import opened Common
  import opened Ledger

  datatype Range = Range(first: byte, last: byte)
  {
    predicate Covers(b: byte) { first <= b <= last }

    predicate Holds(h: Hash) { Covers(h[0]) }

    function Restrict(u: set<Hash>): set<Hash> { set h | h in u && Holds(h) }
  }

  /** What a read sees: a height and the ids present at that height. */
  datatype Snapshot = Snapshot(height: nat, uhs: set<Hash>)

  /** What a shard tells the atomizer: these inputs of `tx` existed at `height`. */
  datatype Notification = Notification(tx: CompactTx, attested: set<nat>, height: nat)

  datatype Reply = Notify(msg: Notification) | Refuse(err: TxError)

  /** Inputs that belong to this shard and are absent from the snapshot, in order. */
  function Missing(r: Range, uhs: set<Hash>, inputs: seq<Hash>): (m: seq<Hash>)
    ensures m == [] <==> forall x | x in inputs && r.Holds(x) :: x in uhs
    ensures forall x :: x in m <==> x in inputs && r.Holds(x) && x !in uhs
  {
    if inputs == [] then []
    else
      var n := |inputs| - 1;
      assert inputs == inputs[..n] + [inputs[n]];
      var init := Missing(r, uhs, inputs[..n]);
      if r.Holds(inputs[n]) && inputs[n] !in uhs then init + [inputs[n]] else init
  }

  function OnShard(r: Range, inputs: seq<Hash>): set<nat> {
    set i: nat | 0 <= i < |inputs| && r.Holds(inputs[i])
  }

  /** The answer to a transaction, from a snapshot that may be stale. */
  function DigestTransaction(r: Range, snap: Snapshot, tx: CompactTx): (reply: Reply)
    ensures reply.Notify? <==>
      snap.height >= 1 && tx.inputs != [] && forall x | x in tx.inputs && r.Holds(x) :: x in snap.uhs
    ensures reply.Notify? ==>
      && reply.msg.tx == tx && reply.msg.height == snap.height >= 1
      && (forall i | i in reply.msg.attested :: i < |tx.inputs| && tx.inputs[i] in snap.uhs)
      && (forall i: nat | i < |tx.inputs| :: i in reply.msg.attested <==> r.Holds(tx.inputs[i]))
    ensures snap.height == 0 ==> reply == Refuse(TxError(tx.id, Sync))
    ensures reply.Refuse? && snap.height >= 1 ==>
      && reply.err.id == tx.id && reply.err.kind.InputsMissing?
      && forall x :: x in reply.err.kind.missing <==> x in tx.inputs && r.Holds(x) && x !in snap.uhs
  {
    if snap.height == 0 then Refuse(TxError(tx.id, Sync))
    else if tx.inputs == [] then Refuse(TxError(tx.id, InputsMissing([])))
    else
      var missing := Missing(r, snap.uhs, tx.inputs);
      if missing != [] then Refuse(TxError(tx.id, InputsMissing(missing)))
      else Notify(Notification(tx, OnShard(r, tx.inputs), snap.height))
  }

  /** Only the next block is digested. */
  function Digest(r: Range, s: Snapshot, blk: Block): Snapshot {
    if blk.height != s.height + 1 then s
    else Snapshot(blk.height, r.Restrict(Uhs(s.uhs, blk.txs)))
  }

  lemma RestrictApply(r: Range, u: set<Hash>, v: set<Hash>, tx: CompactTx)
    requires r.Restrict(u) == r.Restrict(v)
    ensures r.Restrict(ApplyTx(u, tx)) == r.Restrict(ApplyTx(v, tx))
  {
    forall h ensures h in r.Restrict(ApplyTx(u, tx)) <==> h in r.Restrict(ApplyTx(v, tx)) {
      assert h in r.Restrict(u) <==> h in r.Restrict(v);
    }
  }

  /** What happens off the shard does not reach it. */
  lemma {:induction false} RestrictUhs(r: Range, u: set<Hash>, txs: seq<CompactTx>)
    ensures r.Restrict(Uhs(r.Restrict(u), txs)) == r.Restrict(Uhs(u, txs))
  {
    if txs == [] {
      assert r.Restrict(r.Restrict(u)) == r.Restrict(u);
    } else {
      var n := |txs| - 1;
      RestrictUhs(r, u, txs[..n]);
      RestrictApply(r, Uhs(r.Restrict(u), txs[..n]), Uhs(u, txs[..n]), txs[n]);
    }
  }

  /** Digesting the next block of a chain keeps a shard equal to its slice of the replayed chain. */
  lemma DigestKeepsSlice(r: Range, genesis: set<Hash>, chain: seq<Block>, blk: Block, uhs: set<Hash>)
    requires uhs == r.Restrict(Replay(genesis, chain))
    ensures r.Restrict(Uhs(uhs, blk.txs)) == r.Restrict(Replay(genesis, chain + [blk]))
  {
    FlattenSnoc(chain, blk);
    UhsAppend(genesis, Flatten(chain), blk.txs);
    RestrictUhs(r, Replay(genesis, chain), blk.txs);
  }

  ghost predicate Covered(ranges: seq<Range>, b: byte) {
    exists i :: 0 <= i < |ranges| && ranges[i].Covers(b)
  }

  /** The ranges cut the space of first bytes into disjoint pieces that cover it. */
  ghost predicate Partition(ranges: seq<Range>) {
    && (forall b: byte :: Covered(ranges, b))
    && (forall i, j, b: byte | 0 <= i < j < |ranges| :: !(ranges[i].Covers(b) && ranges[j].Covers(b)))
  }

  /** Shards whose ranges partition the id space hold, at a common height, disjoint pieces of the
      global UHS, and together all of it. */
  lemma ShardsPartitionUhs(ranges: seq<Range>, u: set<Hash>)
    requires Partition(ranges)
    ensures forall i, j | 0 <= i < j < |ranges| :: ranges[i].Restrict(u) !! ranges[j].Restrict(u)
    ensures u == set i, h | 0 <= i < |ranges| && h in ranges[i].Restrict(u) :: h
  {
    forall h | h in u
      ensures exists i :: 0 <= i < |ranges| && h in ranges[i].Restrict(u)
    {
      assert Covered(ranges, h[0]);
      var i :| 0 <= i < |ranges| && ranges[i].Covers(h[0]);
      assert h in ranges[i].Restrict(u);
    }
  }
}

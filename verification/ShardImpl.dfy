/** The shard as the object behind its database, and its catch-up loop. */
module ShardImpl {
  import opened Common
  import opened Ledger
  import Spec = Shard

  /** One entry of an atomic write batch. */
  datatype Op = Put(key: Hash) | Delete(key: Hash)

  function Write(db: set<Hash>, batch: seq<Op>): set<Hash> {
    if batch == [] then db
    else
      var before := Write(db, batch[..|batch| - 1]);
      match batch[|batch| - 1]
      case Put(h) => before + {h}
      case Delete(h) => before - {h}
  }

  class Shard {
    const range: Spec.Range
    var height: nat
    var db: set<Hash>
    var snpHeight: nat
    var snp: set<Hash>

    ghost predicate Valid()
      reads this
    {
      db == range.Restrict(db) && snpHeight == height && snp == db
    }

    /** Opens a database, which holds ids of the range only; without a stored height it starts at 0. */
    constructor (range: Spec.Range, stored: Option<nat>, db: set<Hash>)
      requires forall x | x in db :: range.Holds(x)
      ensures Valid() && this.range == range && this.db == db
      ensures height == if stored.Some? then stored.value else 0
    {
      this.range := range;
      this.db := db;
      height := if stored.Some? then stored.value else 0;
      new;
      UpdateSnapshot();
    }

    method AddOutputs(batch: seq<Op>, tx: CompactTx) returns (r: seq<Op>)
      ensures Write(db, r) == Write(db, batch) + range.Restrict(tx.OutputSet())
    {
      r := batch;
      for k := 0 to |tx.outputs|
        invariant Write(db, r) == Write(db, batch) + range.Restrict(set x | x in tx.outputs[..k])
      {
        if range.Holds(tx.outputs[k]) {
          assert (r + [Put(tx.outputs[k])])[..|r|] == r;
          r := r + [Put(tx.outputs[k])];
        }
      }
      assert tx.outputs[..|tx.outputs|] == tx.outputs;
    }

    method DeleteInputs(batch: seq<Op>, tx: CompactTx) returns (r: seq<Op>)
      ensures Write(db, r) == Write(db, batch) - range.Restrict(tx.InputSet())
    {
      r := batch;
      for k := 0 to |tx.inputs|
        invariant Write(db, r) == Write(db, batch) - range.Restrict(set x | x in tx.inputs[..k])
      {
        if range.Holds(tx.inputs[k]) {
          assert (r + [Delete(tx.inputs[k])])[..|r|] == r;
          r := r + [Delete(tx.inputs[k])];
        }
      }
      assert tx.inputs[..|tx.inputs|] == tx.inputs;
    }

    /** Takes the next block: the database becomes this shard's slice of the UHS after the block. */
    method DigestBlock(blk: Block) returns (ok: bool)
      requires Valid()
      modifies this
      ensures Valid()
      ensures ok == (blk.height == old(height) + 1)
      ensures Spec.Snapshot(height, db) == Spec.Digest(range, Spec.Snapshot(old(height), old(db)), blk)
    {
      if blk.height != height + 1 {
        return false;
      }
      var batch: seq<Op> := [];
      for k := 0 to |blk.txs|
        invariant db == old(db) && height == old(height)
        invariant Write(db, batch) == range.Restrict(Uhs(db, blk.txs[..k]))
      {
        ghost var before := blk.txs[..k];
        UhsSnoc(db, before, blk.txs[k]);
        assert blk.txs[..k + 1] == before + [blk.txs[k]];
        batch := AddOutputs(batch, blk.txs[k]);
        batch := DeleteInputs(batch, blk.txs[k]);
      }
      assert blk.txs[..|blk.txs|] == blk.txs;
      height := height + 1;
      db := Write(db, batch);
      UpdateSnapshot();
      return true;
    }

    method UpdateSnapshot()
      modifies `snpHeight, `snp
      ensures snpHeight == height && snp == db
    {
      snpHeight := height;
      snp := db;
    }

    method CheckInputs(inputs: seq<Hash>) returns (attested: set<nat>, missing: seq<Hash>)
      ensures missing == Spec.Missing(range, snp, inputs)
      ensures attested == set k: nat | 0 <= k < |inputs| && range.Holds(inputs[k]) && inputs[k] in snp
    {
      attested, missing := {}, [];
      for i := 0 to |inputs|
        invariant missing == Spec.Missing(range, snp, inputs[..i])
        invariant attested == set k: nat | 0 <= k < i && range.Holds(inputs[k]) && inputs[k] in snp
      {
        var inp := inputs[i];
        assert inputs[..i + 1][..i] == inputs[..i];
        if range.Holds(inp) {
          if inp !in snp {
            missing := missing + [inp];
          } else {
            attested := attested + {i};
          }
        }
      }
      assert inputs[..|inputs|] == inputs;
    }

    /** Attests the inputs of this shard, or says which are missing. */
    method DigestTransaction(tx: CompactTx) returns (reply: Spec.Reply)
      ensures reply == Spec.DigestTransaction(range, Spec.Snapshot(snpHeight, snp), tx)
    {
      if snpHeight == 0 {
        return Spec.Refuse(TxError(tx.id, Sync));
      }
      if tx.inputs == [] {
        return Spec.Refuse(TxError(tx.id, InputsMissing([])));
      }
      var attested, missing := CheckInputs(tx.inputs);
      if missing != [] {
        return Spec.Refuse(TxError(tx.id, InputsMissing(missing)));
      }
      return Spec.Notify(Spec.Notification(tx, attested, snpHeight));
    }

    /** Blocks `from + 1` to `to` of an archive. */
    static function Segment(archive: map<nat, Block>, from: nat, to: nat): (s: seq<Block>)
      requires from <= to && forall h | from < h <= to :: h in archive
      ensures |s| == to - from
    {
      seq(to - from, i requires 0 <= i < to - from => archive[from + 1 + i])
    }

    /** Digests the archived blocks up to just below `target`. */
    method CatchUp(archive: map<nat, Block>, target: nat)
      requires Valid() && height < target
      requires forall h | height < h < target :: h in archive && archive[h].height == h
      modifies this
      ensures Valid() && height == target - 1
      ensures db == range.Restrict(Uhs(old(db), Flatten(Segment(archive, old(height), target - 1))))
    {
      var i := height + 1;
      assert Segment(archive, height, height) == [];
      while i < target
        invariant Valid() && i == height + 1 <= target && old(height) <= height
        invariant db == range.Restrict(Uhs(old(db), Flatten(Segment(archive, old(height), height))))
      {
        ghost var done := Segment(archive, old(height), height);
        assert Segment(archive, old(height), height + 1) == done + [archive[i]];
        Spec.DigestKeepsSlice(range, old(db), done, archive[i], db);
        var ok := DigestBlock(archive[i]);
        i := i + 1;
      }
    }

    /** A block from the atomizer that is newer than the shard: after catching up from the archive the
        shard is where delivery of every block in order would have left it. */
    method AtomizerHandler(archive: map<nat, Block>, blk: Block)
      requires Valid() && height < blk.height
      requires forall h | height < h < blk.height :: h in archive && archive[h].height == h
      modifies this
      ensures Valid() && height == blk.height
      ensures db == range.Restrict(Uhs(old(db), Flatten(Segment(archive, old(height), blk.height - 1) + [blk])))
    {
      ghost var missed := Segment(archive, height, blk.height - 1);
      assert Segment(archive, height, height) == [];
      Spec.DigestKeepsSlice(range, db, [], blk, db);
      var ok := DigestBlock(blk);
      while !ok
        invariant Valid()
        invariant !ok ==> height == old(height) < blk.height && db == old(db)
        invariant ok ==> height == blk.height && db == range.Restrict(Uhs(old(db), Flatten(missed + [blk])))
        decreases !ok
      {
        CatchUp(archive, blk.height);
        Spec.DigestKeepsSlice(range, old(db), missed, blk, db);
        ok := DigestBlock(blk);
      }
    }
  }
}

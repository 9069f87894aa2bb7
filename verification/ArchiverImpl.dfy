/** The archiver controller around its database, which holds serialized blocks. */
module ArchiverImpl {
  import opened Common
  import opened BlockCodec
  import opened Layouts
  import Spec = Archiver

  class Archiver {
    /** In memory; 0 until the stored value has been read. */
    var best: nat
    var deferred: map<nat, Block>
    /** The database: the best-block key and the blocks. */
    var storedBest: nat
    var db: map<nat, seq<byte>>
    /** The blocks that the bytes stand for. */
    ghost var blocks: map<nat, Block>
    /** Messages sent to the atomizer cluster. */
    var sent: seq<Spec.Request>

    ghost function State(): Spec.State
      reads this
    {
      Spec.State(storedBest, blocks, deferred)
    }

    ghost predicate Valid()
      reads this
    {
      && (best == 0 || best == storedBest) && State().Valid()
      && AllSized(deferred) && Archive(db, blocks)
    }

    /** Opens a database that an earlier run may have left behind. */
    constructor (storedBest: nat, db: map<nat, seq<byte>>, ghost blocks: map<nat, Block>)
      requires Archive(db, blocks)
      ensures Valid() && State() == Spec.State(storedBest, blocks, map[]) && sent == [] && this.db == db
    {
      best := 0;
      deferred := map[];
      this.storedBest := storedBest;
      this.db := db;
      this.blocks := blocks;
      sent := [];
    }

    method DigestBlock(blk: Block)
      requires Valid() && SizedBlock(blk)
      modifies this
      ensures Valid()
      ensures State() == Spec.DigestBlock(old(State()), blk).0
      ensures sent == old(sent) + Spec.DigestBlock(old(State()), blk).1
      decreases Spec.Above(deferred, blk.height), 1
    {
      if best == 0 {
        best := storedBest;
      }
      if blk.height <= best {
        return;
      }
      if blk.height != best + 1 {
        Defer(blk);
        return;
      }
      StoreAndGoOn(blk);
    }

    /** Stores the next block, and then a deferred successor. */
    method StoreAndGoOn(blk: Block)
      requires Valid() && SizedBlock(blk) && best == storedBest && blk.height == storedBest + 1
      modifies this
      ensures Valid()
      ensures State() == Spec.DigestBlock(old(State()), blk).0
      ensures sent == old(sent) + Spec.DigestBlock(old(State()), blk).1
      decreases Spec.Above(deferred, blk.height), 0
    {
      DigestUnfolds(State(), blk);
      ghost var s := State();
      var next := Store(blk);
      if next.Some? {
        AboveShrinks(s.deferred, blk.height);
        DigestBlock(next.value);
      }
    }

    /** Keeps a block for later and asks for the one before it. */
    method Defer(blk: Block)
      requires Valid() && SizedBlock(blk) && blk.height > storedBest + 1
      modifies this`deferred, this`sent
      ensures Valid() && State() == Spec.Defer(old(State()), blk)
      ensures sent == old(sent) + if blk.height - 1 in old(deferred) then [] else [Spec.GetBlock(blk.height - 1)]
    {
      if blk.height - 1 !in deferred {
        sent := sent + [Spec.GetBlock(blk.height - 1)];
      }
      if blk.height !in deferred {
        deferred := deferred[blk.height := blk];
      }
    }

    /** Stores the next block and asks for pruning; gives back a deferred successor. */
    method Store(blk: Block) returns (next: Option<Block>)
      requires Valid() && SizedBlock(blk) && best == storedBest && blk.height == storedBest + 1
      modifies this
      ensures Valid() && best == storedBest && State() == Spec.Store(old(State()), blk)
      ensures sent == old(sent) + [Spec.Prune(blk.height)]
      ensures next.Some? ==> SizedBlock(next.value)
      ensures next == if blk.height + 1 in old(deferred) then Some(old(deferred)[blk.height + 1]) else None
    {
      var bytes := MakeBlockBuffer(blk);
      ArchiveMore(db, blocks, blk.height, bytes, blk);
      db := db[blk.height := bytes];
      blocks := blocks[blk.height := blk];
      storedBest := blk.height;
      best := best + 1;
      sent := sent + [Spec.Prune(best)];
      next := if blk.height + 1 in deferred then Some(deferred[blk.height + 1]) else None;
      deferred := deferred - {blk.height};
    }

    /** The block that was stored, read back from its bytes. */
    method GetBlock(height: nat) returns (blk: Option<Block>)
      requires Valid()
      ensures blk.Some? <==> height in db
      ensures height in db ==> Stores(db[height], blk.value)
      ensures height in db <==> height in State().db
      ensures height in db ==> blk.value == State().db[height]
    {
      if height !in db {
        return None;
      }
      assert Stores(db[height], blocks[height]);
      blk := BlockFromBuffer(db[height]);
    }
  }

  /** Storing a block and going on with its deferred successor is digesting it. */
  lemma DigestUnfolds(s: Spec.State, blk: Block)
    requires s.Valid() && blk.height == s.best + 1
    ensures var t, h := Spec.Store(s, blk), blk.height;
            && t.Valid()
            && (h + 1 !in s.deferred ==> Spec.DigestBlock(s, blk) == (t, [Spec.Prune(h)]))
            && (h + 1 in s.deferred ==>
                  var (u, reqs) := Spec.DigestBlock(t, s.deferred[h + 1]);
                  Spec.DigestBlock(s, blk) == (u, [Spec.Prune(h)] + reqs))
  {
  }

  lemma AboveShrinks(deferred: map<nat, Block>, h: nat)
    requires h + 1 in deferred
    ensures Spec.Above(deferred - {h}, h + 1) < Spec.Above(deferred, h)
  {
    assert h + 1 in Spec.Above(deferred, h);
  }

  ghost predicate AllSized(deferred: map<nat, Block>) {
    forall h | h in deferred :: SizedBlock(deferred[h])
  }

  /** The database holds the serialized form of each block. */
  ghost predicate Archive(db: map<nat, seq<byte>>, blocks: map<nat, Block>) {
    db.Keys == blocks.Keys && forall h | h in db :: Stores(db[h], blocks[h])
  }

  lemma ArchiveMore(db: map<nat, seq<byte>>, blocks: map<nat, Block>, h: nat, bytes: seq<byte>, b: Block)
    requires Archive(db, blocks) && Stores(bytes, b)
    ensures Archive(db[h := bytes], blocks[h := b])
  {
  }
}

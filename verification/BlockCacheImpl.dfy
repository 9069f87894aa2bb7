/** The block cache as the code runs it. */
module BlockCacheImpl {
  import opened Common
  import opened BlockCache

  lemma {:induction false} EntriesAppend(a: seq<Block>, b: seq<Block>)
    ensures Entries(a + b) == Entries(a) + Entries(b)
    decreases |b|
  {
    if b == [] {
      assert a + b == a;
    } else {
      var n := |b| - 1;
      EntriesAppend(a, b[..n]);
      assert a + b == a + b[..n] + [b[n]] && b == b[..n] + [b[n]];
      EntriesLast(a + b, a + b[..n], b[n]);
      EntriesLast(b, b[..n], b[n]);
      Regroup(Entries(a), Entries(b[..n]), InBlock(b[n]));
    }
  }

  lemma Regroup(x: seq<Entry>, y: seq<Entry>, z: seq<Entry>)
    ensures x + y + z == x + (y + z)
  {
  }

  lemma EntriesLast(all: seq<Block>, init: seq<Block>, blk: Block)
    requires all == init + [blk]
    ensures Entries(all) == Entries(init) + InBlock(blk)
  {
    assert all[..|all| - 1] == init;
  }

  lemma EntriesOne(blk: Block)
    ensures Entries([blk]) == InBlock(blk)
  {
    assert [blk][..0] == [];
    assert [] + InBlock(blk) == InBlock(blk);
  }

  lemma EraseSnoc(m: Ids, ids: seq<Hash>, x: Hash)
    ensures Erase(m, ids + [x]) == Erase(m, ids) - {x}
  {
  }

  lemma InsertSnoc(m: Ids, ids: seq<Hash>, x: Hash, p: Place)
    ensures var n := Insert(m, ids, p); Insert(m, ids + [x], p) == if x in n then n else n[x := p]
  {
  }

  /** What stays when a block is about to come in. */
  function Kept(k: nat, all: seq<Block>): (r: seq<Block>)
    ensures |r| <= |all| && r == all[|all| - |r|..]
  {
    if k == 0 || |all| < k then all else all[|all| - (k - 1)..]
  }

  lemma KeptAndOne(k: nat, all: seq<Block>, blk: Block)
    ensures Kept(k, all) + [blk] == Window(k, all + [blk])
    ensures k == 0 || |Window(k, all)| != k ==> Kept(k, all) == Window(k, all)
    ensures k != 0 && |Window(k, all)| == k ==> Kept(k, all) == Window(k, all)[1..]
  {
  }

  class Cache {
    const limit: nat
    var blks: seq<Block>
    var best: nat
    var unspent: Ids
    var spent: Ids
    /** Every block ever pushed. */
    ghost var all: seq<Block>

    ghost function View(): Index
      reads this`unspent, this`spent
    {
      Index(unspent, spent)
    }

    /** The index answers as a scan of the last blocks does. */
    ghost predicate Valid()
      reads this
    {
      Indexed(limit, all, blks, View(), best)
    }

    constructor (k: nat)
      ensures Valid() && all == [] && limit == k
    {
      limit := k;
      blks, best, all := [], 0, [];
      unspent, spent := map[], map[];
    }

    method EraseSpent(ids: seq<Hash>)
      modifies this`spent
      ensures spent == Erase(old(spent), ids)
    {
      for i := 0 to |ids|
        invariant spent == Erase(old(spent), ids[..i])
      {
        assert ids[..i + 1] == ids[..i] + [ids[i]];
        spent := spent - {ids[i]};
      }
      assert ids[..|ids|] == ids;
    }

    method EraseUnspent(ids: seq<Hash>)
      modifies this`unspent
      ensures unspent == Erase(old(unspent), ids)
    {
      for i := 0 to |ids|
        invariant unspent == Erase(old(unspent), ids[..i])
      {
        assert ids[..i + 1] == ids[..i] + [ids[i]];
        unspent := unspent - {ids[i]};
      }
      assert ids[..|ids|] == ids;
    }

    method Spend(ids: seq<Hash>, p: Place)
      modifies this`unspent, this`spent
      ensures unspent == Erase(old(unspent), ids) && spent == Insert(old(spent), ids, p)
    {
      for i := 0 to |ids|
        invariant unspent == Erase(old(unspent), ids[..i]) && spent == Insert(old(spent), ids[..i], p)
      {
        assert ids[..i + 1] == ids[..i] + [ids[i]];
        EraseSnoc(old(unspent), ids[..i], ids[i]);
        InsertSnoc(old(spent), ids[..i], ids[i], p);
        unspent := unspent - {ids[i]};
        if ids[i] !in spent {
          spent := spent[ids[i] := p];
        }
      }
      assert ids[..|ids|] == ids;
    }

    method Create(ids: seq<Hash>, p: Place)
      modifies this`unspent
      ensures unspent == Insert(old(unspent), ids, p)
    {
      for i := 0 to |ids|
        invariant unspent == Insert(old(unspent), ids[..i], p)
      {
        assert ids[..i + 1] == ids[..i] + [ids[i]];
        InsertSnoc(old(unspent), ids[..i], ids[i], p);
        if ids[i] !in unspent {
          unspent := unspent[ids[i] := p];
        }
      }
      assert ids[..|ids|] == ids;
    }

    method Evict(old_blk: Block)
      modifies this`unspent, this`spent
      ensures View() == DroppedAll(old(View()), InBlock(old_blk))
    {
      ghost var es := InBlock(old_blk);
      for i := 0 to |old_blk.txs|
        invariant View() == DroppedAll(old(View()), es[..i])
      {
        assert es[..i + 1][..i] == es[..i] && es[i].tx == old_blk.txs[i];
        EraseSpent(old_blk.txs[i].inputs);
        EraseUnspent(old_blk.txs[i].outputs);
      }
      assert es[..|es|] == es;
    }

    method Include(blk: Block)
      modifies this`unspent, this`spent
      ensures View() == AddedAll(old(View()), InBlock(blk))
    {
      ghost var es := InBlock(blk);
      for i := 0 to |blk.txs|
        invariant View() == AddedAll(old(View()), es[..i])
      {
        assert es[..i + 1][..i] == es[..i] && es[i] == Entry(blk.height, blk.txs[i]);
        Spend(blk.txs[i].inputs, (blk.height, blk.txs[i].id));
        Create(blk.txs[i].outputs, (blk.height, blk.txs[i].id));
      }
      assert es[..|es|] == es;
    }

    /** Evicts the oldest block if the cache is full. */
    method MakeRoom()
      modifies this`blks, this`unspent, this`spent
      ensures blks == Room(limit, old(blks)) && View() == RoomIndex(limit, old(blks), old(View()))
    {
      if limit != 0 && |blks| == limit {
        Evict(blks[0]);
        blks := blks[1..];
      }
    }

    method Append(blk: Block)
      modifies this`blks, this`all, this`best
      ensures blks == old(blks) + [blk] && all == old(all) + [blk]
      ensures best == Higher(old(best), blk)
    {
      blks, all := blks + [blk], all + [blk];
      best := if best < blk.height then blk.height else best;
    }

    method PushBlock(blk: Block)
      requires Valid() && Stream(Entries(all + [blk]))
      modifies this
      ensures Valid() && all == old(all) + [blk]
    {
      Pushed(limit, all, blks, View(), best, blk);
      Replace(blk);
    }

    /** What pushing does to the fields. */
    method Replace(blk: Block)
      modifies this
      ensures blks == Room(limit, old(blks)) + [blk] && all == old(all) + [blk] && best == Higher(old(best), blk)
      ensures View() == AddedAll(RoomIndex(limit, old(blks), old(View())), InBlock(blk))
    {
      MakeRoom();
      Include(blk);
      Append(blk);
    }

    method CheckUnspent(x: Hash) returns (r: Option<Place>)
      requires Valid()
      ensures r == ScanUnspent(Entries(Window(limit, all)), x)
    {
      assert AgreesAt(View(), Entries(blks), x);
      if x in unspent {
        return Some(unspent[x]);
      }
      return None;
    }

    method CheckSpent(x: Hash) returns (r: Option<Place>)
      requires Valid()
      ensures r == ScanSpent(Entries(Window(limit, all)), x)
    {
      assert AgreesAt(View(), Entries(blks), x);
      if x in spent {
        return Some(spent[x]);
      }
      return None;
    }
  }

  /** The index answers as a scan of the last `k` of all blocks does. */
  ghost predicate Indexed(k: nat, all: seq<Block>, blks: seq<Block>, ix: Index, best: nat) {
    && blks == Window(k, all) && Stream(Entries(all))
    && Agrees(ix, Entries(blks)) && UpTo(all, best)
  }

  ghost predicate UpTo(all: seq<Block>, best: nat) {
    forall b | b in all :: b.height <= best
  }

  lemma UpToSnoc(all: seq<Block>, best: nat, blk: Block)
    requires UpTo(all, best)
    ensures UpTo(all + [blk], Higher(best, blk))
  {
  }

  lemma StreamSuffix(a: seq<Entry>, b: seq<Entry>)
    requires Stream(a + b)
    ensures Stream(b)
  {
    StreamSlice(a + b, |a|, |a + b|);
    assert (a + b)[|a|..|a + b|] == b;
  }

  /** The last blocks of a stream are a stream. */
  lemma WindowStream(all: seq<Block>, k: nat)
    requires Stream(Entries(all)) && k <= |all|
    ensures Stream(Entries(all[k..]))
  {
    assert all == all[..k] + all[k..];
    SuffixStream(all[..k], all[k..]);
  }

  lemma SuffixStream(pre: seq<Block>, blks: seq<Block>)
    requires Stream(Entries(pre + blks))
    ensures Stream(Entries(blks))
  {
    EntriesAppend(pre, blks);
    StreamSuffix(Entries(pre), Entries(blks));
  }

  function Higher(best: nat, blk: Block): nat { if best < blk.height then blk.height else best }

  /** The cached blocks once there is room for one more. */
  function Room(k: nat, blks: seq<Block>): seq<Block> {
    if k != 0 && |blks| == k then blks[1..] else blks
  }

  function RoomIndex(k: nat, blks: seq<Block>, ix: Index): Index {
    if k != 0 && |blks| == k then DroppedAll(ix, InBlock(blks[0])) else ix
  }

  lemma PushStream(k: nat, all: seq<Block>, blks: seq<Block>, blk: Block)
    requires Stream(Entries(all + [blk])) && blks == Kept(k, all)
    ensures blks + [blk] == Window(k, all + [blk]) && Stream(Entries(blks + [blk]))
  {
    KeptAndOne(k, all, blk);
    WindowStream(all + [blk], |all| - |blks|);
    assert (all + [blk])[|all| - |blks|..] == blks + [blk];
  }

  lemma RoomAgrees(k: nat, all: seq<Block>, blks: seq<Block>, ix: Index)
    requires blks == Window(k, all) && Stream(Entries(all)) && Agrees(ix, Entries(blks))
    ensures Room(k, blks) == Kept(k, all) && Agrees(RoomIndex(k, blks, ix), Entries(Room(k, blks)))
  {
    KeptAndOne(k, all, Block(0, []));
    if k != 0 && |blks| == k {
      WindowStream(all, |all| - |blks|);
      EvictAgrees(ix, blks);
    }
  }

  /** Evicting, indexing and appending keeps the index equal to the scan of the last blocks. */
  lemma Pushed(k: nat, all: seq<Block>, blks: seq<Block>, ix: Index, best: nat, blk: Block)
    requires Indexed(k, all, blks, ix, best) && Stream(Entries(all + [blk]))
    ensures Indexed(k, all + [blk], Room(k, blks) + [blk], AddedAll(RoomIndex(k, blks, ix), InBlock(blk)),
                    Higher(best, blk))
  {
    RoomAgrees(k, all, blks, ix);
    var room := Room(k, blks);
    PushStream(k, all, room, blk);
    IncludeAgrees(RoomIndex(k, blks, ix), room, blk);
    UpToSnoc(all, best, blk);
  }

  lemma IncludeAgrees(ix: Index, blks: seq<Block>, blk: Block)
    requires Agrees(ix, Entries(blks)) && Stream(Entries(blks + [blk]))
    ensures Agrees(AddedAll(ix, InBlock(blk)), Entries(blks + [blk]))
  {
    EntriesAppend(blks, [blk]);
    EntriesOne(blk);
    AddedAllAgrees(ix, Entries(blks), InBlock(blk));
  }

  /** Dropping the oldest block from the index leaves the index of the others. */
  lemma EvictAgrees(ix: Index, blks: seq<Block>)
    requires blks != [] && Stream(Entries(blks)) && Agrees(ix, Entries(blks))
    ensures Agrees(DroppedAll(ix, InBlock(blks[0])), Entries(blks[1..]))
  {
    assert blks == [blks[0]] + blks[1..];
    EntriesAppend([blks[0]], blks[1..]);
    EntriesOne(blks[0]);
    var es, n := Entries(blks), |InBlock(blks[0])|;
    assert es[..n] == InBlock(blks[0]) && es[n..] == Entries(blks[1..]);
    DroppedAllAgrees(ix, es, n);
  }
}

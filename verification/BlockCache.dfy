/** The watchtower's index of recent blocks: which ids they created and not yet spent, and which they
    spent. It is measured against a scan of the blocks themselves. */
module BlockCache {
  import opened Common
  import opened Ledger

  /** The height of a block and the id of one of its transactions. */
  type Place = (nat, Hash)

  datatype Entry = Entry(height: nat, tx: CompactTx)
  {
    function Place(): Place { (height, tx.id) }
  }

  /** The transactions of a list of blocks, in order. */
  function Entries(blks: seq<Block>): seq<Entry> {
    if blks == [] then [] else Entries(blks[..|blks| - 1]) + InBlock(blks[|blks| - 1])
  }

  function InBlock(blk: Block): (es: seq<Entry>)
    ensures |es| == |blk.txs|
  {
    seq(|blk.txs|, i requires 0 <= i < |blk.txs| => Entry(blk.height, blk.txs[i]))
  }

  // ---------------------------------------------------------------- the scan

  /** The last transaction that spends `x`. */
  function ScanSpent(es: seq<Entry>, x: Hash): Option<Place> {
    if es == [] then None
    else
      var e := es[|es| - 1];
      if x in e.tx.inputs then Some(e.Place()) else ScanSpent(es[..|es| - 1], x)
  }

  /** The last transaction that creates `x`, unless a later one spends it. */
  function ScanUnspent(es: seq<Entry>, x: Hash): Option<Place> {
    if es == [] then None
    else
      var e := es[|es| - 1];
      if x in e.tx.outputs then Some(e.Place())
      else if x in e.tx.inputs then None
      else ScanUnspent(es[..|es| - 1], x)
  }

  /** The most recent blocks, all of them if `k` is 0. */
  function Window(k: nat, all: seq<Block>): seq<Block> {
    if k == 0 || |all| <= k then all else all[|all| - k..]
  }

  // ---------------------------------------------------------------- the index

  type Ids = map<Hash, Place>

  datatype Index = Index(unspent: Ids, spent: Ids)

  function Erase(m: Ids, ids: seq<Hash>): Ids { m - set x | x in ids }

  /** Entries that are there already stay as they are. */
  function Insert(m: Ids, ids: seq<Hash>, p: Place): Ids {
    map x | x in m.Keys + (set y | y in ids) :: if x in m then m[x] else p
  }

  function Look(m: Ids, x: Hash): Option<Place> { if x in m then Some(m[x]) else None }

  function Added(ix: Index, e: Entry): Index {
    Index(Insert(Erase(ix.unspent, e.tx.inputs), e.tx.outputs, e.Place()), Insert(ix.spent, e.tx.inputs, e.Place()))
  }

  function Dropped(ix: Index, e: Entry): Index {
    Index(Erase(ix.unspent, e.tx.outputs), Erase(ix.spent, e.tx.inputs))
  }

  function AddedAll(ix: Index, es: seq<Entry>): Index {
    if es == [] then ix else Added(AddedAll(ix, es[..|es| - 1]), es[|es| - 1])
  }

  function DroppedAll(ix: Index, es: seq<Entry>): Index {
    if es == [] then ix else Dropped(DroppedAll(ix, es[..|es| - 1]), es[|es| - 1])
  }

  /** The index answers as the scan does. */
  ghost predicate AgreesAt(ix: Index, es: seq<Entry>, x: Hash) {
    Look(ix.spent, x) == ScanSpent(es, x) && Look(ix.unspent, x) == ScanUnspent(es, x)
  }

  ghost predicate Agrees(ix: Index, es: seq<Entry>) {
    forall x :: AgreesAt(ix, es, x)
  }

  // ---------------------------------------------------------------- streams

  ghost predicate Creates(es: seq<Entry>, i: nat, x: Hash) { i < |es| && x in es[i].tx.outputs }

  ghost predicate Consumes(es: seq<Entry>, i: nat, x: Hash) { i < |es| && x in es[i].tx.inputs }

  /** Ids are created once, spent once, and spent by a later transaction than the one that created them. */
  ghost predicate Stream(es: seq<Entry>) {
    && (forall i: nat, j: nat, x | Creates(es, i, x) && Creates(es, j, x) :: i == j)
    && (forall i: nat, j: nat, x | Consumes(es, i, x) && Consumes(es, j, x) :: i == j)
    && (forall i: nat, j: nat, x | Creates(es, i, x) && Consumes(es, j, x) :: i < j)
  }

  lemma {:induction false} EntriesAreHistory(chain: seq<Block>)
    ensures |Entries(chain)| == |Flatten(chain)|
    ensures forall i | 0 <= i < |Flatten(chain)| :: Entries(chain)[i].tx == Flatten(chain)[i]
  {
    if chain != [] {
      EntriesAreHistory(chain[..|chain| - 1]);
    }
  }

  lemma StreamSlice(es: seq<Entry>, a: nat, b: nat)
    requires Stream(es) && a <= b <= |es|
    ensures Stream(es[a..b])
  {
    var t := es[a..b];
    forall i: nat, x | Creates(t, i, x) ensures Creates(es, a + i, x) { }
    forall i: nat, x | Consumes(t, i, x) ensures Consumes(es, a + i, x) { }
    forall i: nat, j: nat, x | Creates(t, i, x) && Creates(t, j, x) ensures i == j {
      assert Creates(es, a + i, x) && Creates(es, a + j, x);
    }
    forall i: nat, j: nat, x | Consumes(t, i, x) && Consumes(t, j, x) ensures i == j {
      assert Consumes(es, a + i, x) && Consumes(es, a + j, x);
    }
    forall i: nat, j: nat, x | Creates(t, i, x) && Consumes(t, j, x) ensures i < j {
      assert Creates(es, a + i, x) && Consumes(es, a + j, x);
    }
  }

  lemma {:induction false} ScanFinds(es: seq<Entry>, x: Hash)
    ensures ScanSpent(es, x).Some? <==> exists i: nat :: Consumes(es, i, x)
    ensures ScanUnspent(es, x).Some? ==> exists i: nat :: Creates(es, i, x)
  {
    if es != [] {
      var n := |es| - 1;
      var init := es[..n];
      ScanFinds(init, x);
      if i: nat :| Consumes(init, i, x) { assert Consumes(es, i, x); }
      if i: nat :| Creates(init, i, x) { assert Creates(es, i, x); }
      if x in es[n].tx.inputs { assert Consumes(es, n, x); }
      if x in es[n].tx.outputs { assert Creates(es, n, x); }
      if i: nat :| Consumes(es, i, x) && i < n { assert Consumes(init, i, x); }
    }
  }

  // ---------------------------------------------------------------- adding

  lemma AddedAgreesAt(ix: Index, es: seq<Entry>, e: Entry, x: Hash)
    requires AgreesAt(ix, es, x) && Stream(es + [e])
    ensures AgreesAt(Added(ix, e), es + [e], x)
  {
    var t := es + [e];
    assert t[..|es|] == es && t[|es|] == e;
    ScanFinds(es, x);
    if x in e.tx.inputs {
      assert Consumes(t, |es|, x);
      if i: nat :| Consumes(es, i, x) { assert Consumes(t, i, x); }
    }
    if x in e.tx.outputs {
      assert Creates(t, |es|, x);
      if i: nat :| Creates(es, i, x) { assert Creates(t, i, x); }
    }
  }

  lemma {:induction false} AddedAllAgrees(ix: Index, es: seq<Entry>, more: seq<Entry>)
    requires Agrees(ix, es) && Stream(es + more)
    ensures Agrees(AddedAll(ix, more), es + more)
    decreases |more|
  {
    if more == [] {
      assert es + more == es;
    } else {
      var n := |more| - 1;
      var t := es + more;
      StreamSlice(t, 0, |es| + n);
      assert t[0..|es| + n] == es + more[..n];
      AddedAllAgrees(ix, es, more[..n]);
      var iy := AddedAll(ix, more[..n]);
      assert t == es + more[..n] + [more[n]];
      forall x ensures AgreesAt(Added(iy, more[n]), t, x) {
        assert AgreesAt(iy, es + more[..n], x);
        AddedAgreesAt(iy, es + more[..n], more[n], x);
      }
    }
  }

  // ---------------------------------------------------------------- evicting

  /** Without its oldest entry, a scan no longer finds what that entry did and finds everything else. */
  lemma {:induction false} ScanTail(es: seq<Entry>, x: Hash)
    requires Stream(es) && es != []
    ensures ScanSpent(es[1..], x) == if x in es[0].tx.inputs then None else ScanSpent(es, x)
    ensures ScanUnspent(es[1..], x) == if x in es[0].tx.outputs then None else ScanUnspent(es, x)
  {
    var n := |es| - 1;
    if n == 0 {
      assert es[..0] == [];
    } else {
      StreamSlice(es, 0, n);
      ScanTail(es[..n], x);
      assert es[1..][..n - 1] == es[..n][1..] && es[1..][n - 1] == es[n];
      if x in es[0].tx.inputs { assert Consumes(es, 0, x); }
      if x in es[0].tx.outputs { assert Creates(es, 0, x); }
      if x in es[n].tx.inputs { assert Consumes(es, n, x); }
      if x in es[n].tx.outputs { assert Creates(es, n, x); }
    }
  }

  lemma DroppedAgrees(ix: Index, es: seq<Entry>)
    requires Agrees(ix, es) && Stream(es) && es != []
    ensures Agrees(Dropped(ix, es[0]), es[1..])
  {
    forall x ensures AgreesAt(Dropped(ix, es[0]), es[1..], x) {
      assert AgreesAt(ix, es, x);
      ScanTail(es, x);
    }
  }

  lemma {:induction false} DroppedAllAgrees(ix: Index, es: seq<Entry>, n: nat)
    requires Agrees(ix, es) && Stream(es) && n <= |es|
    ensures Agrees(DroppedAll(ix, es[..n]), es[n..])
  {
    if n == 0 {
      assert es[0..] == es && es[..0] == [];
    } else {
      DroppedAllAgrees(ix, es, n - 1);
      assert es[..n][..n - 1] == es[..n - 1];
      StreamSlice(es, n - 1, |es|);
      assert es[n - 1..|es|] == es[n - 1..];
      DroppedAgrees(DroppedAll(ix, es[..n - 1]), es[n - 1..]);
      assert es[n - 1..][1..] == es[n..];
    }
  }

  // ---------------------------------------------------------------- what the answers mean

  /** Entry `i` is at the place `p`. */
  ghost predicate IsAt(es: seq<Entry>, i: nat, p: Place) { i < |es| && p.0 == es[i].height && p.1 == es[i].tx.id }

  /** Entry `i` is transaction `k` of block `b`. */
  ghost predicate From(blks: seq<Block>, es: seq<Entry>, i: nat, b: nat, k: nat) {
    i < |es| && b < |blks| && k < |blks[b].txs| && es[i].height == blks[b].height && es[i].tx == blks[b].txs[k]
  }

  lemma {:induction false} EntryFrom(blks: seq<Block>, i: nat)
    requires i < |Entries(blks)|
    ensures exists b: nat, k: nat :: From(blks, Entries(blks), i, b, k)
  {
    var n := |blks| - 1;
    var init, es := Entries(blks[..n]), Entries(blks);
    if i < |init| {
      EntryFrom(blks[..n], i);
      var b: nat, k: nat :| From(blks[..n], init, i, b, k);
      assert From(blks, es, i, b, k);
    } else {
      assert From(blks, es, i, n, i - |init|);
    }
  }

  /** Spent means: some transaction spends it, and the answer is its height and id. */
  lemma {:induction false} SpentMeans(es: seq<Entry>, x: Hash)
    ensures ScanSpent(es, x) == None <==> forall i: nat :: !Consumes(es, i, x)
    ensures ScanSpent(es, x).Some? ==> exists i: nat :: Consumes(es, i, x) && IsAt(es, i, ScanSpent(es, x).value)
  {
    if es != [] {
      var n := |es| - 1;
      SpentMeans(es[..n], x);
      if Consumes(es, n, x) {
        assert IsAt(es, n, ScanSpent(es, x).value);
      } else {
        EarlierEntries(es, n, x);
        if ScanSpent(es, x).Some? {
          var i: nat :| Consumes(es[..n], i, x) && IsAt(es[..n], i, ScanSpent(es, x).value);
          assert Consumes(es, i, x) && IsAt(es, i, ScanSpent(es, x).value);
        }
      }
    }
  }

  lemma EarlierEntries(es: seq<Entry>, n: nat, x: Hash)
    requires n < |es|
    ensures forall i: nat | i < n :: Consumes(es, i, x) == Consumes(es[..n], i, x)
    ensures forall i: nat | i < n :: Creates(es, i, x) == Creates(es[..n], i, x)
    ensures forall i: nat | i >= n :: !Consumes(es[..n], i, x) && !Creates(es[..n], i, x)
  {
  }

  /** Unspent means: some transaction creates it and none after that spends it. */
  ghost predicate Alive(es: seq<Entry>, i: nat, x: Hash) {
    Creates(es, i, x) && forall j: nat | j > i :: !Consumes(es, j, x)
  }

  lemma {:induction false} UnspentMeans(es: seq<Entry>, x: Hash)
    ensures ScanUnspent(es, x).Some? ==> exists i: nat :: Alive(es, i, x) && IsAt(es, i, ScanUnspent(es, x).value)
    ensures ScanUnspent(es, x) == None ==> forall i: nat :: !Alive(es, i, x)
  {
    if es != [] {
      var n := |es| - 1;
      UnspentMeans(es[..n], x);
      EarlierEntries(es, n, x);
      if Creates(es, n, x) {
        assert Alive(es, n, x) && IsAt(es, n, ScanUnspent(es, x).value);
      } else if Consumes(es, n, x) {
        forall i: nat ensures !Alive(es, i, x) { }
      } else {
        UnspentBefore(es, n, x);
      }
    }
  }

  lemma UnspentBefore(es: seq<Entry>, n: nat, x: Hash)
    requires |es| == n + 1 && !Creates(es, n, x) && !Consumes(es, n, x)
    ensures forall i: nat :: Alive(es, i, x) <==> Alive(es[..n], i, x)
  {
    EarlierEntries(es, n, x);
    forall i: nat ensures Alive(es, i, x) <==> Alive(es[..n], i, x) {
      assert forall j: nat :: Consumes(es, j, x) == Consumes(es[..n], j, x);
    }
  }
}

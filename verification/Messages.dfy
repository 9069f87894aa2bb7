/** How transactions, blocks and the atomizer appear in the binary format. */
module Messages {
  import opened Common
  import opened Serialization
  import Atomizer

  const HASH := Array(32)
  const U64 := Int(8)
  const COMPACT_TX := Pair(HASH, Pair(Vector(HASH), Pair(Vector(HASH), UnorderedMap(Array(32), Array(64)))))
  const BLOCK := Pair(U64, Vector(COMPACT_TX))
  const SLOT := UnorderedMap(COMPACT_TX, UnorderedSet(Int(4)))
  const ATOMIZER :=
    Pair(U64, Pair(U64, Pair(Vector(COMPACT_TX), Pair(Vector(UnorderedSet(HASH)), Vector(SLOT)))))

  lemma NumberTyped(n: u64)
    ensures Typed(U64, LNumber(n))
  {
    EightBytes();
  }

  function HashFrom(v: Value): Hash {
    if v.Bytes? && |v.bytes| == 32 then v.bytes else NoHash()
  }

  function HashesValue(hs: seq<Hash>): Value {
    List(seq(|hs|, i requires 0 <= i < |hs| => Bytes(hs[i])))
  }

  function AttestationsValue(m: map<PubKey, Signature>): Value {
    Table(map k | k in m :: Bytes(k) := Bytes(m[k]))
  }

  function TxValue(t: CompactTx): Value {
    Two(Bytes(t.id), Two(HashesValue(t.inputs), Two(HashesValue(t.outputs), AttestationsValue(t.attestations))))
  }

  function TxsValue(ts: seq<CompactTx>): Value {
    List(seq(|ts|, i requires 0 <= i < |ts| => TxValue(ts[i])))
  }

  function BlockValue(b: Block): Value { Two(Number(b.height), TxsValue(b.txs)) }

  function IdsValue(s: set<Hash>): Value { Bag(set h | h in s :: Bytes(h)) }

  function WindowValue(w: seq<set<Hash>>): Value {
    List(seq(|w|, i requires 0 <= i < |w| => IdsValue(w[i])))
  }

  function IndicesValue(s: set<nat>): Value { Bag(set i | i in s :: Number(i)) }

  predicate WellKeyed(slot: map<Hash, Atomizer.Pending>) {
    forall id | id in slot :: slot[id].tx.id == id
  }

  function SlotValue(slot: map<Hash, Atomizer.Pending>): Value
    requires WellKeyed(slot)
  {
    Table(map id | id in slot :: TxValue(slot[id].tx) := IndicesValue(slot[id].attested))
  }

  predicate AllWellKeyed(txs: seq<map<Hash, Atomizer.Pending>>) {
    forall o | 0 <= o < |txs| :: WellKeyed(txs[o])
  }

  function SlotsValue(txs: seq<map<Hash, Atomizer.Pending>>): Value
    requires AllWellKeyed(txs)
  {
    List(seq(|txs|, i requires 0 <= i < |txs| => SlotValue(txs[i])))
  }

  function AtomizerValue(a: Atomizer.State): Value
    requires AllWellKeyed(a.txs)
  {
    Two(Number(a.depth), Two(Number(a.height), Two(TxsValue(a.complete), Two(WindowValue(a.spent), SlotsValue(a.txs)))))
  }

  function BlocksValue(blocks: map<nat, Block>): Value {
    Table(map h | h in blocks :: Number(h) := BlockValue(blocks[h]))
  }

  lemma PairsReadable(a: Schema, b: Schema, c: Schema)
    requires Readable(a) && Readable(b) && Readable(c)
    ensures Readable(Pair(a, Pair(b, c)))
  {
  }

  lemma FormatsReadable()
    ensures Readable(COMPACT_TX) && Readable(BLOCK) && Readable(ATOMIZER) && Readable(UnorderedMap(U64, BLOCK))
  {
    assert Readable(UnorderedMap(Array(32), Array(64)));
    assert Readable(COMPACT_TX);
    assert Readable(Vector(COMPACT_TX));
    assert Readable(SLOT);
    PairsReadable(Vector(COMPACT_TX), Vector(UnorderedSet(HASH)), Vector(SLOT));
  }

  // ---------------------------------------------------------------- different data, different values

  lemma HashesInjective(a: seq<Hash>, b: seq<Hash>)
    requires HashesValue(a) == HashesValue(b)
    ensures a == b
  {
    assert |HashesValue(a).elems| == |HashesValue(b).elems|;
    forall i | 0 <= i < |a| ensures a[i] == b[i] {
      assert HashesValue(a).elems[i] == HashesValue(b).elems[i];
    }
  }

  lemma AttestationsInjective(a: map<PubKey, Signature>, b: map<PubKey, Signature>)
    requires AttestationsValue(a) == AttestationsValue(b)
    ensures a == b
  {
    var m, n := AttestationsValue(a).entries, AttestationsValue(b).entries;
    forall k ensures k in a <==> k in b {
      if k in a { assert Bytes(k) in m; }
      if k in b { assert Bytes(k) in n; }
    }
    forall k | k in a ensures a[k] == b[k] {
      assert m[Bytes(k)] == n[Bytes(k)];
    }
  }

  lemma TxInjective(a: CompactTx, b: CompactTx)
    requires TxValue(a) == TxValue(b)
    ensures a == b
  {
    HashesInjective(a.inputs, b.inputs);
    HashesInjective(a.outputs, b.outputs);
    AttestationsInjective(a.attestations, b.attestations);
  }

  lemma TxsInjective(a: seq<CompactTx>, b: seq<CompactTx>)
    requires TxsValue(a) == TxsValue(b)
    ensures a == b
  {
    assert |TxsValue(a).elems| == |TxsValue(b).elems|;
    forall i | 0 <= i < |a| ensures a[i] == b[i] {
      assert TxsValue(a).elems[i] == TxsValue(b).elems[i];
      TxInjective(a[i], b[i]);
    }
  }

  lemma IdsInjective(a: set<Hash>, b: set<Hash>)
    requires IdsValue(a) == IdsValue(b)
    ensures a == b
  {
    forall h ensures h in a <==> h in b {
      if h in a { assert Bytes(h) in IdsValue(a).members; }
      if h in b { assert Bytes(h) in IdsValue(b).members; }
    }
  }

  lemma WindowInjective(a: seq<set<Hash>>, b: seq<set<Hash>>)
    requires WindowValue(a) == WindowValue(b)
    ensures a == b
  {
    assert |WindowValue(a).elems| == |WindowValue(b).elems|;
    forall i | 0 <= i < |a| ensures a[i] == b[i] {
      assert WindowValue(a).elems[i] == WindowValue(b).elems[i];
      IdsInjective(a[i], b[i]);
    }
  }

  lemma IndicesInjective(a: set<nat>, b: set<nat>)
    requires IndicesValue(a) == IndicesValue(b)
    ensures a == b
  {
    forall i ensures i in a <==> i in b {
      if i in a { assert Number(i) in IndicesValue(a).members; }
      if i in b { assert Number(i) in IndicesValue(b).members; }
    }
  }

  /** An entry of one slot is an entry of the other. */
  lemma SlotEntry(a: map<Hash, Atomizer.Pending>, b: map<Hash, Atomizer.Pending>, id: Hash)
    requires WellKeyed(a) && WellKeyed(b) && SlotValue(a) == SlotValue(b) && id in a
    ensures id in b && a[id] == b[id]
  {
    var m, n := SlotValue(a).entries, SlotValue(b).entries;
    var key := TxValue(a[id].tx);
    assert key in m && m[key] == IndicesValue(a[id].attested);
    assert key in n;
    var id' :| id' in b && TxValue(b[id'].tx) == key;
    TxInjective(a[id].tx, b[id'].tx);
    IndicesInjective(a[id].attested, b[id].attested);
  }

  lemma SlotInjective(a: map<Hash, Atomizer.Pending>, b: map<Hash, Atomizer.Pending>)
    requires WellKeyed(a) && WellKeyed(b) && SlotValue(a) == SlotValue(b)
    ensures a == b
  {
    forall id | id in a ensures id in b && a[id] == b[id] { SlotEntry(a, b, id); }
    forall id | id in b ensures id in a { SlotEntry(b, a, id); }
  }

  lemma SlotsInjective(a: seq<map<Hash, Atomizer.Pending>>, b: seq<map<Hash, Atomizer.Pending>>)
    requires AllWellKeyed(a) && AllWellKeyed(b) && SlotsValue(a) == SlotsValue(b)
    ensures a == b
  {
    assert |SlotsValue(a).elems| == |SlotsValue(b).elems|;
    forall i | 0 <= i < |a| ensures a[i] == b[i] {
      assert SlotsValue(a).elems[i] == SlotsValue(b).elems[i];
      SlotInjective(a[i], b[i]);
    }
  }

  lemma AtomizerInjective(a: Atomizer.State, b: Atomizer.State)
    requires AllWellKeyed(a.txs) && AllWellKeyed(b.txs) && AtomizerValue(a) == AtomizerValue(b)
    ensures a == b
  {
    TxsInjective(a.complete, b.complete);
    WindowInjective(a.spent, b.spent);
    SlotsInjective(a.txs, b.txs);
  }

  lemma BlocksInjective(a: map<nat, Block>, b: map<nat, Block>)
    requires BlocksValue(a) == BlocksValue(b)
    ensures a == b
  {
    var m, n := BlocksValue(a).entries, BlocksValue(b).entries;
    forall h ensures h in a <==> h in b {
      if h in a { assert Number(h) in m; }
      if h in b { assert Number(h) in n; }
    }
    forall h | h in a ensures a[h] == b[h] {
      assert m[Number(h)] == n[Number(h)];
      TxsInjective(a[h].txs, b[h].txs);
    }
  }
}

/** Blocks as the archiver's database keeps them: bytes, written in whatever order a hash table has and
    read back through the decoder. */
module BlockCodec {
  import opened Common
  import opened Codec
  import opened Serialization
  import opened Messages
  import opened Layouts
  import SerializerImpl

  /** Some way of writing `b` gives these bytes. */
  ghost predicate Stores(bytes: seq<byte>, b: Block) {
    SizedBlock(b) && exists c: Layout :: StoredAs(bytes, b, c)
  }

  ghost predicate StoredAs(bytes: seq<byte>, b: Block, c: Layout) {
    BlockLaid(b, c) && Typed(BLOCK, c) && bytes == Encode(BLOCK, c)
  }

  /** Stored bytes hold one block. */
  lemma StoresOne(bytes: seq<byte>, b: Block, b': Block)
    requires Stores(bytes, b) && Stores(bytes, b')
    ensures b == b'
  {
    var c: Layout :| StoredAs(bytes, b, c);
    var d: Layout :| StoredAs(bytes, b', d);
    BlockBytesInjective(b, c, b', d, [], []);
  }

  lemma StoredDecodes(bytes: seq<byte>, b: Block)
    requires Stores(bytes, b)
    ensures Readable(BLOCK) && Decode(BLOCK, bytes) == Some((BlockValue(b), []))
  {
    var c: Layout :| StoredAs(bytes, b, c);
    BlockOk(b, c);
    FormatsReadable();
    RoundTrip(BLOCK, c);
    assert Encode(BLOCK, c) + [] == bytes;
    assert Decoder(BLOCK)(bytes) == Some((BlockValue(b), []));
  }

  // ---------------------------------------------------------------- writing

  method LayAttestations(m: map<PubKey, Signature>) returns (c: Layout)
    ensures exists order :: AttestationsLaid(m, order, c)
  {
    var entries: seq<(Layout, Layout)> := [];
    var left := m.Keys;
    ghost var order: seq<PubKey> := [];
    while left != {}
      invariant left <= m.Keys && Orders(order, m.Keys - left) && |entries| == |order|
      invariant forall i | 0 <= i < |order| :: order[i] in m && entries[i] == (LBytes(order[i]), LBytes(m[order[i]]))
      decreases left
    {
      var k :| k in left;
      OrdersSnoc(order, m.Keys - left, k);
      assert m.Keys - left + {k} == m.Keys - (left - {k});
      order, entries, left := order + [k], entries + [(LBytes(k), LBytes(m[k]))], left - {k};
    }
    assert m.Keys - left == m.Keys;
    c := LMap(entries);
    assert AttestationsLaid(m, order, c);
  }

  lemma OrdersSnoc<T>(order: seq<T>, s: set<T>, x: T)
    requires Orders(order, s) && x !in s
    ensures Orders(order + [x], s + {x})
  {
    assert forall i | 0 <= i < |order| :: order[i] in Members(order);
    assert Members(order + [x]) == Members(order) + {x};
  }

  method LayTxs(ts: seq<CompactTx>) returns (c: Layout)
    ensures TxsLaid(ts, c)
  {
    var elems: seq<Layout> := [];
    for i := 0 to |ts|
      invariant |elems| == i && forall k | 0 <= k < i :: TxLaid(ts[k], elems[k])
    {
      var sigs := LayAttestations(ts[i].attestations);
      var tx := LTwo(LBytes(ts[i].id), LTwo(HashesLayout(ts[i].inputs), LTwo(HashesLayout(ts[i].outputs), sigs)));
      elems := elems + [tx];
    }
    c := LList(elems);
  }

  method MakeBlockBuffer(b: Block) returns (bytes: seq<byte>)
    requires SizedBlock(b)
    ensures Stores(bytes, b)
  {
    var txs := LayTxs(b.txs);
    var c := LTwo(LNumber(b.height), txs);
    BlockOk(b, c);
    bytes := SerializerImpl.MakeBuffer(BLOCK, c, 0);
    assert StoredAs(bytes, b, c);
  }

  // ---------------------------------------------------------------- reading

  function HashesFrom(v: Value): seq<Hash> {
    if v.List? then seq(|v.elems|, i requires 0 <= i < |v.elems| => HashFrom(v.elems[i])) else []
  }

  function AttestationsFrom(v: Value): map<PubKey, Signature> {
    if v.Table? then
      map k | k in (set x | x in v.entries && x.Bytes? :: x.bytes) && v.entries[Bytes(k)].Bytes?
            :: v.entries[Bytes(k)].bytes
    else map[]
  }

  function TxFrom(v: Value): CompactTx {
    if v.Two? && v.b.Two? && v.b.b.Two?
    then CompactTx(HashFrom(v.a), HashesFrom(v.b.a), HashesFrom(v.b.b.a), AttestationsFrom(v.b.b.b))
    else CompactTx(NoHash(), [], [], map[])
  }

  function TxsFrom(v: Value): seq<CompactTx> {
    if v.List? then seq(|v.elems|, i requires 0 <= i < |v.elems| => TxFrom(v.elems[i])) else []
  }

  function BlockFrom(v: Value): Block {
    if v.Two? && v.a.Number? then Block(v.a.n, TxsFrom(v.b)) else Block(0, [])
  }

  lemma TxFromValue(t: CompactTx)
    ensures TxFrom(TxValue(t)) == t
  {
    assert HashesFrom(HashesValue(t.inputs)) == t.inputs && HashesFrom(HashesValue(t.outputs)) == t.outputs;
    AttestationsFromValue(t.attestations);
  }

  lemma AttestationsFromValue(m: map<PubKey, Signature>)
    ensures AttestationsFrom(AttestationsValue(m)) == m
  {
    var e := AttestationsValue(m).entries;
    forall k | k in m ensures Bytes(k) in e && e[Bytes(k)] == Bytes(m[k]) {
    }
  }

  lemma BlockFromValue(b: Block)
    ensures BlockFrom(BlockValue(b)) == b
  {
    forall i | 0 <= i < |b.txs| ensures TxFrom(TxsValue(b.txs).elems[i]) == b.txs[i] {
      TxFromValue(b.txs[i]);
    }
    assert TxsFrom(TxsValue(b.txs)) == b.txs;
  }

  method BlockFromBuffer(bytes: seq<byte>) returns (r: Option<Block>)
    ensures forall b | Stores(bytes, b) :: r == Some(b)
  {
    FormatsReadable();
    var v := SerializerImpl.FromBuffer(BLOCK, bytes, 1);
    r := if v.None? then None else Some(BlockFrom(v.value));
    forall b | Stores(bytes, b) ensures r == Some(b) {
      StoredDecodes(bytes, b);
      BlockFromValue(b);
    }
  }
}

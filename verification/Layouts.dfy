/** How the encoders walk over transactions, blocks and the atomizer: every hash table in any order. */
module Layouts {
  import opened Common
  import opened Codec
  import opened Serialization
  import opened Messages
  import Atomizer
  import StateMachine

  // ---------------------------------------------------------------- sizes of the fields

  const U32_RANGE: nat := 0x1_0000_0000

  /** Public keys have 32 bytes and signatures 64, and counts are 64-bit. */
  ghost predicate SizedTx(t: CompactTx) {
    && |t.inputs| < U64_RANGE && |t.outputs| < U64_RANGE && |t.attestations| < U64_RANGE
    && forall k | k in t.attestations :: |k| == 32 && |t.attestations[k]| == 64
  }

  ghost predicate SizedTxs(ts: seq<CompactTx>) {
    |ts| < U64_RANGE && forall i | 0 <= i < |ts| :: SizedTx(ts[i])
  }

  ghost predicate SizedBlock(b: Block) { b.height < U64_RANGE && SizedTxs(b.txs) }

  /** Input indices are 32-bit. */
  ghost predicate SizedIndices(s: set<nat>) { |s| < U64_RANGE && forall i | i in s :: i < U32_RANGE }

  ghost predicate SizedSlot(slot: map<Hash, Atomizer.Pending>) {
    && WellKeyed(slot) && |slot| < U64_RANGE
    && forall id | id in slot :: SizedTx(slot[id].tx) && SizedIndices(slot[id].attested)
  }

  ghost predicate SizedSlots(txs: seq<map<Hash, Atomizer.Pending>>) {
    forall o | 0 <= o < |txs| :: SizedSlot(txs[o])
  }

  ghost predicate SizedAtomizer(a: Atomizer.State) {
    && a.Valid() && SizedTxs(a.complete)
    && (forall o | 0 <= o < |a.spent| :: |a.spent[o]| < U64_RANGE)
    && SizedSlots(a.txs)
  }

  ghost predicate SizedBlocks(blocks: map<nat, Block>) {
    |blocks| < U64_RANGE && forall h | h in blocks :: h < U64_RANGE && SizedBlock(blocks[h])
  }

  // ---------------------------------------------------------------- layouts

  /** An iteration order of a hash table: every member once. */
  ghost predicate Orders<T>(order: seq<T>, s: set<T>) { Distinct(order) && Members(order) == s }

  function HashesLayout(hs: seq<Hash>): Layout {
    LList(seq(|hs|, i requires 0 <= i < |hs| => LBytes(hs[i])))
  }

  ghost predicate AttestationsLaid(m: map<PubKey, Signature>, order: seq<PubKey>, c: Layout) {
    && Orders(order, m.Keys) && c.LMap? && |c.entries| == |order|
    && forall i | 0 <= i < |order| :: c.entries[i] == (LBytes(order[i]), LBytes(m[order[i]]))
  }

  ghost predicate TxLaid(t: CompactTx, c: Layout) {
    && c.LTwo? && c.b.LTwo? && c.b.b.LTwo?
    && c.a == LBytes(t.id) && c.b.a == HashesLayout(t.inputs) && c.b.b.a == HashesLayout(t.outputs)
    && exists order :: AttestationsLaid(t.attestations, order, c.b.b.b)
  }

  ghost predicate TxsLaid(ts: seq<CompactTx>, c: Layout) {
    c.LList? && |c.elems| == |ts| && forall i | 0 <= i < |ts| :: TxLaid(ts[i], c.elems[i])
  }

  ghost predicate BlockLaid(b: Block, c: Layout) {
    c.LTwo? && c.a == LNumber(b.height) && TxsLaid(b.txs, c.b)
  }

  ghost predicate IdsLaid(s: set<Hash>, c: Layout) {
    c.LSet? && exists order :: Orders(order, s) && c.order == ByteLayouts(order)
  }

  function ByteLayouts(hs: seq<Hash>): (cs: seq<Layout>)
    ensures |cs| == |hs|
  {
    seq(|hs|, i requires 0 <= i < |hs| => LBytes(hs[i]))
  }

  ghost predicate WindowLaid(w: seq<set<Hash>>, c: Layout) {
    c.LList? && |c.elems| == |w| && forall i | 0 <= i < |w| :: IdsLaid(w[i], c.elems[i])
  }

  function NumberLayouts(ns: seq<nat>): (cs: seq<Layout>)
    ensures |cs| == |ns|
  {
    seq(|ns|, i requires 0 <= i < |ns| => LNumber(ns[i]))
  }

  ghost predicate IndicesLaid(s: set<nat>, c: Layout) {
    c.LSet? && exists order: seq<nat> :: Orders(order, s) && c.order == NumberLayouts(order)
  }

  ghost predicate SlotLaid(slot: map<Hash, Atomizer.Pending>, order: seq<Hash>, c: Layout) {
    && Orders(order, slot.Keys) && c.LMap? && |c.entries| == |order|
    && (forall i | 0 <= i < |order| :: TxLaid(slot[order[i]].tx, c.entries[i].0))
    && (forall i | 0 <= i < |order| :: IndicesLaid(slot[order[i]].attested, c.entries[i].1))
  }

  ghost predicate SomeSlotLaid(slot: map<Hash, Atomizer.Pending>, c: Layout) {
    exists order :: SlotLaid(slot, order, c)
  }

  ghost predicate SlotsLaid(txs: seq<map<Hash, Atomizer.Pending>>, c: Layout) {
    c.LList? && |c.elems| == |txs| && forall i | 0 <= i < |txs| :: SomeSlotLaid(txs[i], c.elems[i])
  }

  /** The cache depth, the height, the complete transactions, the window and the slots, in this order. */
  ghost predicate AtomizerLaid(a: Atomizer.State, c: Layout) {
    && c.LTwo? && c.b.LTwo? && c.b.b.LTwo? && c.b.b.b.LTwo?
    && c.a == LNumber(a.depth) && c.b.a == LNumber(a.height)
    && TxsLaid(a.complete, c.b.b.a) && WindowLaid(a.spent, c.b.b.b.a) && SlotsLaid(a.txs, c.b.b.b.b)
  }

  ghost predicate BlocksLaid(blocks: map<nat, Block>, order: seq<nat>, c: Layout) {
    && Orders(order, blocks.Keys) && c.LMap? && |c.entries| == |order|
    && forall i | 0 <= i < |order| :: c.entries[i].0 == LNumber(order[i]) && BlockLaid(blocks[order[i]], c.entries[i].1)
  }

  // ---------------------------------------------------------------- byte by byte

  lemma HashesBytes(hs: seq<Hash>)
    requires Typed(Vector(HASH), HashesLayout(hs))
    ensures Encode(Vector(HASH), HashesLayout(hs)) == Counted(hs)
  {
    assert EncodeEach(HASH, HashesLayout(hs).elems) == hs;
  }

  function Signed(m: map<PubKey, Signature>, order: seq<PubKey>): seq<seq<byte>> {
    seq(|order|, i requires 0 <= i < |order| => if order[i] in m then order[i] + m[order[i]] else [])
  }

  const SIGNATURES := UnorderedMap(Array(32), Array(64))

  lemma AttestationsBytes(m: map<PubKey, Signature>, order: seq<PubKey>, c: Layout)
    requires AttestationsLaid(m, order, c) && Typed(SIGNATURES, c)
    ensures Encode(SIGNATURES, c) == Counted(Signed(m, order))
  {
    forall i | 0 <= i < |order| ensures order[i] in m { assert order[i] in Members(order); }
    var parts := EncodeEntries(SIGNATURES, c.entries);
    forall i | 0 <= i < |order| ensures parts[i] == Signed(m, order)[i] { }
    assert parts == Signed(m, order);
  }

  lemma PairBytes(s1: Schema, s2: Schema, c: Layout)
    requires Typed(Pair(s1, s2), c)
    ensures c.LTwo? && Typed(s1, c.a) && Typed(s2, c.b) && Encode(Pair(s1, s2), c) == Encode(s1, c.a) + Encode(s2, c.b)
  {
  }

  /** A compact transaction: its id, its inputs, its outputs, and its attestations in some order. */
  lemma TxBytes(t: CompactTx, c: Layout)
    requires TxLaid(t, c) && Typed(COMPACT_TX, c)
    ensures exists order: seq<PubKey> ::
      && Orders(order, t.attestations.Keys)
      && Encode(COMPACT_TX, c) ==
         t.id + (Counted(t.inputs) + (Counted(t.outputs) + Counted(Signed(t.attestations, order))))
  {
    var order :| AttestationsLaid(t.attestations, order, c.b.b.b);
    PairBytes(HASH, Pair(Vector(HASH), Pair(Vector(HASH), SIGNATURES)), c);
    PairBytes(Vector(HASH), Pair(Vector(HASH), SIGNATURES), c.b);
    PairBytes(Vector(HASH), SIGNATURES, c.b.b);
    HashesBytes(t.inputs);
    HashesBytes(t.outputs);
    AttestationsBytes(t.attestations, order, c.b.b.b);
  }

  /** A block: its height and its transactions. */
  lemma BlockBytes(b: Block, c: Layout)
    requires BlockLaid(b, c) && Typed(BLOCK, c)
    ensures Encode(BLOCK, c) == LittleEndian(b.height, 8) + Encode(Vector(COMPACT_TX), c.b)
  {
  }

  // ---------------------------------------------------------------- filling in some order

  lemma SameMap<K, V>(ks: seq<K>, f: map<K, V>, m: map<K, V>)
    requires f.Keys == m.Keys == Members(ks) && forall i | 0 <= i < |ks| && ks[i] in f :: f[ks[i]] == m[ks[i]]
    ensures f == m
  {
    forall k | k in f ensures f[k] == m[k] {
      assert k in Members(ks);
    }
  }

  lemma FillAt<K, V>(es: seq<(K, V)>, i: nat)
    requires Distinct(Keys(es)) && i < |es|
    ensures es[i].0 in Fill(map[], es) && Fill(map[], es)[es[i].0] == es[i].1
  {
    FillHolds(map[], es);
    assert Keys(es)[i] in Members(Keys(es));
  }

  lemma FillKeys<K, V>(es: seq<(K, V)>)
    requires Distinct(Keys(es))
    ensures Fill(map[], es).Keys == Members(Keys(es))
  {
    FillHolds(map[], es);
  }

  lemma FillIs<K, V>(es: seq<(K, V)>, m: map<K, V>)
    requires Distinct(Keys(es)) && Members(Keys(es)) == m.Keys
    requires forall i | 0 <= i < |es| && es[i].0 in m :: m[es[i].0] == es[i].1
    ensures Fill(map[], es) == m
  {
    var ks, f := Keys(es), Fill(map[], es);
    FillKeys(es);
    forall i | 0 <= i < |ks| && ks[i] in f ensures f[ks[i]] == m[ks[i]] {
      FillAt(es, i);
    }
    SameMap(ks, f, m);
  }

  ghost predicate InjectiveOn<T>(f: T -> Value, s: set<T>) {
    forall x, y | x in s && y in s && f(x) == f(y) :: x == y
  }

  ghost predicate KeyedBy<T(!new)>(m: map<Value, Value>, keys: set<T>, f: T -> Value) {
    m.Keys == set x | x in keys :: f(x)
  }

  /** A bag whose members are `f` of the ordered members. */
  lemma BagIs<T>(order: seq<T>, s: set<T>, f: T -> Value, vs: seq<Value>)
    requires Orders(order, s) && |vs| == |order|
    requires InjectiveOn(f, s)
    requires forall i | 0 <= i < |order| :: vs[i] == f(order[i])
    ensures Distinct(vs) && Members(vs) == set x | x in s :: f(x)
  {
    assert forall i | 0 <= i < |order| :: order[i] in s;
    forall v ensures v in Members(vs) <==> exists x :: x in s && f(x) == v {
      if v in Members(vs) {
        var i :| 0 <= i < |vs| && vs[i] == v;
        assert order[i] in s;
      }
      if x :| x in s && f(x) == v {
        assert x in Members(order);
        var i :| 0 <= i < |order| && order[i] == x;
        assert vs[i] == v;
      }
    }
  }

  /** An order lists as many members as there are. */
  lemma {:induction false} OrderSize<T>(order: seq<T>, s: set<T>)
    requires Orders(order, s)
    ensures |order| == |s|
  {
    if order == [] {
      assert s == {};
    } else {
      DistinctTail(order);
      OrderSize(order[1..], s - {order[0]});
    }
  }

  // ---------------------------------------------------------------- a layout has the type and the data

  /** `c` is a layout of type `s` that holds `v`. */
  ghost predicate Holds(s: Schema, c: Layout, v: Value) { Typed(s, c) && Abs(c) == v }

  lemma HoldsTwo(s1: Schema, s2: Schema, c: Layout, v1: Value, v2: Value)
    requires c.LTwo? && Holds(s1, c.a, v1) && Holds(s2, c.b, v2)
    ensures Holds(Pair(s1, s2), c, Two(v1, v2))
  {
  }

  lemma HoldsList(e: Schema, c: Layout, vs: seq<Value>)
    requires c.LList? && |c.elems| == |vs| < U64_RANGE
    requires forall i | 0 <= i < |vs| :: Holds(e, c.elems[i], vs[i])
    ensures Holds(Vector(e), c, List(vs))
  {
    assert AbsAll(c.elems) == vs;
  }

  lemma HoldsBag<T>(e: Schema, c: Layout, order: seq<T>, s: set<T>, f: T -> Value)
    requires c.LSet? && |c.order| == |order| && Orders(order, s) && |s| < U64_RANGE
    requires InjectiveOn(f, s)
    requires forall i | 0 <= i < |order| :: Holds(e, c.order[i], f(order[i]))
    ensures Holds(UnorderedSet(e), c, Bag(set x | x in s :: f(x)))
  {
    OrderSize(order, s);
    BagIs(order, s, f, AbsAll(c.order));
  }

  /** `ks` lists the keys of `m`, in the order of the entries. */
  lemma HoldsTable(k: Schema, v: Schema, c: Layout, ks: seq<Value>, m: map<Value, Value>)
    requires c.LMap? && |c.entries| == |ks| < U64_RANGE && Orders(ks, m.Keys)
    requires forall i | 0 <= i < |ks| :: Holds(k, c.entries[i].0, ks[i])
    requires forall i | 0 <= i < |ks| :: ks[i] in m && Holds(v, c.entries[i].1, m[ks[i]])
    ensures Holds(UnorderedMap(k, v), c, Table(m))
  {
    KeysOfEntries(c.entries, ks);
    TableTyped(k, v, c, ks);
    EntriesFill(AbsEntries(c.entries), ks, m);
  }

  lemma KeysOfEntries(es: seq<(Layout, Layout)>, ks: seq<Value>)
    requires |es| == |ks| && forall i | 0 <= i < |ks| :: Abs(es[i].0) == ks[i]
    ensures Keys(AbsEntries(es)) == ks
  {
  }

  lemma TableTyped(k: Schema, v: Schema, c: Layout, ks: seq<Value>)
    requires c.LMap? && |c.entries| == |ks| < U64_RANGE && Distinct(ks) && Keys(AbsEntries(c.entries)) == ks
    requires forall i | 0 <= i < |ks| :: Typed(k, c.entries[i].0) && Typed(v, c.entries[i].1)
    ensures Typed(UnorderedMap(k, v), c)
  {
  }

  lemma EntriesFill(es: seq<(Value, Value)>, ks: seq<Value>, m: map<Value, Value>)
    requires Keys(es) == ks && Orders(ks, m.Keys)
    requires forall i | 0 <= i < |ks| :: ks[i] in m && es[i].1 == m[ks[i]]
    ensures Fill(map[], es) == m
  {
    FillIs(es, m);
  }

  /** The keys of `m` are `f` of the ordered keys. */
  lemma KeyOrder<T(!new)>(order: seq<T>, keys: set<T>, f: T -> Value, m: map<Value, Value>) returns (ks: seq<Value>)
    requires Orders(order, keys) && |keys| < U64_RANGE
    requires InjectiveOn(f, keys) && KeyedBy(m, keys, f)
    ensures |ks| == |order| < U64_RANGE && Orders(ks, m.Keys)
    ensures forall i | 0 <= i < |ks| :: order[i] in keys && ks[i] == f(order[i]) && ks[i] in m
  {
    OrderSize(order, keys);
    ks := seq(|order|, i requires 0 <= i < |order| => f(order[i]));
    BagIs(order, keys, f, ks);
    forall i | 0 <= i < |ks| ensures order[i] in keys && ks[i] in m {
      assert order[i] in Members(order);
    }
  }

  /** A table whose keys are `f` of the keys of a hash table, entry by entry. */
  lemma HoldsMapped<T(!new)>(k: Schema, v: Schema, c: Layout, order: seq<T>, keys: set<T>, f: T -> Value,
                             m: map<Value, Value>)
    requires c.LMap? && |c.entries| == |order| && Orders(order, keys) && |keys| < U64_RANGE
    requires InjectiveOn(f, keys) && KeyedBy(m, keys, f)
    requires forall i | 0 <= i < |order| :: EntryHolds(k, v, c.entries[i], f(order[i]), m)
    ensures Holds(UnorderedMap(k, v), c, Table(m))
  {
    var ks := KeyOrder(order, keys, f, m);
    forall i | 0 <= i < |ks| ensures Holds(k, c.entries[i].0, ks[i]) && Holds(v, c.entries[i].1, m[ks[i]]) {
      assert EntryHolds(k, v, c.entries[i], f(order[i]), m);
    }
    HoldsTable(k, v, c, ks, m);
  }

  ghost predicate EntryHolds(k: Schema, v: Schema, e: (Layout, Layout), key: Value, m: map<Value, Value>) {
    key in m && Holds(k, e.0, key) && Holds(v, e.1, m[key])
  }

  lemma HashesOk(hs: seq<Hash>)
    requires |hs| < U64_RANGE
    ensures Holds(Vector(HASH), HashesLayout(hs), HashesValue(hs))
  {
    HoldsList(HASH, HashesLayout(hs), HashesValue(hs).elems);
  }

  function KeyBytes(k: PubKey): Value { Bytes(k) }

  lemma AttestationKeys(m: map<PubKey, Signature>)
    ensures InjectiveOn(KeyBytes, m.Keys) && KeyedBy(AttestationsValue(m).entries, m.Keys, KeyBytes)
    ensures forall k | k in m :: KeyBytes(k) in AttestationsValue(m).entries
    ensures forall k | k in m :: AttestationsValue(m).entries[KeyBytes(k)] == Bytes(m[k])
  {
  }

  lemma AttestationEntries(m: map<PubKey, Signature>, order: seq<PubKey>, c: Layout)
    requires AttestationsLaid(m, order, c) && forall k | k in m :: |k| == 32 && |m[k]| == 64
    ensures forall i | 0 <= i < |order| ::
      EntryHolds(Array(32), Array(64), c.entries[i], KeyBytes(order[i]), AttestationsValue(m).entries)
  {
    AttestationKeys(m);
    forall i | 0 <= i < |order|
      ensures EntryHolds(Array(32), Array(64), c.entries[i], KeyBytes(order[i]), AttestationsValue(m).entries)
    {
      assert order[i] in Members(order);
      AttestationOk(order[i], m[order[i]], c.entries[i]);
    }
  }

  lemma AttestationsOk(m: map<PubKey, Signature>, order: seq<PubKey>, c: Layout)
    requires AttestationsLaid(m, order, c) && |m| < U64_RANGE
    requires forall k | k in m :: |k| == 32 && |m[k]| == 64
    ensures Holds(UnorderedMap(Array(32), Array(64)), c, AttestationsValue(m))
  {
    AttestationKeys(m);
    AttestationEntries(m, order, c);
    HoldsMapped(Array(32), Array(64), c, order, m.Keys, KeyBytes, AttestationsValue(m).entries);
  }

  lemma AttestationOk(k: PubKey, s: Signature, c: (Layout, Layout))
    requires |k| == 32 && |s| == 64 && c == (LBytes(k), LBytes(s))
    ensures Holds(Array(32), c.0, Bytes(k)) && Holds(Array(64), c.1, Bytes(s))
  {
  }

  lemma TxOk(t: CompactTx, c: Layout)
    requires TxLaid(t, c) && SizedTx(t)
    ensures Holds(COMPACT_TX, c, TxValue(t))
  {
    HashesOk(t.inputs);
    HashesOk(t.outputs);
    var order :| AttestationsLaid(t.attestations, order, c.b.b.b);
    AttestationsOk(t.attestations, order, c.b.b.b);
    TxParts(t, c);
  }

  lemma TxParts(t: CompactTx, c: Layout)
    requires c.LTwo? && c.b.LTwo? && c.b.b.LTwo? && c.a == LBytes(t.id)
    requires Holds(Vector(HASH), c.b.a, HashesValue(t.inputs)) && Holds(Vector(HASH), c.b.b.a, HashesValue(t.outputs))
    requires Holds(UnorderedMap(Array(32), Array(64)), c.b.b.b, AttestationsValue(t.attestations))
    ensures Holds(COMPACT_TX, c, TxValue(t))
  {
    var sigs := UnorderedMap(Array(32), Array(64));
    HoldsTwo(Vector(HASH), sigs, c.b.b, HashesValue(t.outputs), AttestationsValue(t.attestations));
    HoldsTwo(Vector(HASH), Pair(Vector(HASH), sigs), c.b, HashesValue(t.inputs), Abs(c.b.b));
    HoldsTwo(HASH, Pair(Vector(HASH), Pair(Vector(HASH), sigs)), c, Bytes(t.id), Abs(c.b));
  }

  lemma TxsOk(ts: seq<CompactTx>, c: Layout)
    requires TxsLaid(ts, c) && SizedTxs(ts)
    ensures Holds(Vector(COMPACT_TX), c, TxsValue(ts))
  {
    forall i | 0 <= i < |ts| ensures Holds(COMPACT_TX, c.elems[i], TxsValue(ts).elems[i]) {
      TxOk(ts[i], c.elems[i]);
    }
    HoldsList(COMPACT_TX, c, TxsValue(ts).elems);
  }

  lemma BlockOk(b: Block, c: Layout)
    requires BlockLaid(b, c) && SizedBlock(b)
    ensures Holds(BLOCK, c, BlockValue(b))
  {
    NumberTyped(b.height);
    TxsOk(b.txs, c.b);
    HoldsTwo(U64, Vector(COMPACT_TX), c, Number(b.height), TxsValue(b.txs));
  }

  lemma IdsOk(s: set<Hash>, c: Layout)
    requires IdsLaid(s, c) && |s| < U64_RANGE
    ensures Holds(UnorderedSet(HASH), c, IdsValue(s))
  {
    var order :| Orders(order, s) && c.order == ByteLayouts(order);
    HoldsBag(HASH, c, order, s, (h: Hash) => Bytes(h));
    assert (set x | x in s :: ((h: Hash) => Bytes(h))(x)) == IdsValue(s).members;
  }

  lemma WindowOk(w: seq<set<Hash>>, c: Layout)
    requires WindowLaid(w, c) && |w| < U64_RANGE && forall o | 0 <= o < |w| :: |w[o]| < U64_RANGE
    ensures Holds(Vector(UnorderedSet(HASH)), c, WindowValue(w))
  {
    forall i | 0 <= i < |w| ensures Holds(UnorderedSet(HASH), c.elems[i], WindowValue(w).elems[i]) {
      IdsOk(w[i], c.elems[i]);
    }
    HoldsList(UnorderedSet(HASH), c, WindowValue(w).elems);
  }

  lemma FourBytes()
    ensures Pow256(4) == U32_RANGE
  {
    assert Pow256(2) == 65536;
  }

  lemma IndicesOk(s: set<nat>, c: Layout)
    requires IndicesLaid(s, c) && SizedIndices(s)
    ensures Holds(UnorderedSet(Int(4)), c, IndicesValue(s))
  {
    var order: seq<nat> :| Orders(order, s) && c.order == NumberLayouts(order);
    IndexBytes(order, s);
    HoldsBag(Int(4), c, order, s, (i: nat) => Number(i));
    assert (set x | x in s :: ((i: nat) => Number(i))(x)) == IndicesValue(s).members;
  }

  lemma IndexBytes(order: seq<nat>, s: set<nat>)
    requires Orders(order, s) && SizedIndices(s)
    ensures forall i | 0 <= i < |order| :: Holds(Int(4), LNumber(order[i]), Number(order[i]))
  {
    FourBytes();
    assert forall i | 0 <= i < |order| :: order[i] in Members(order);
  }

  function KeyValue(slot: map<Hash, Atomizer.Pending>): Hash -> Value {
    id => if id in slot then TxValue(slot[id].tx) else Unit
  }

  lemma KeysDiffer(slot: map<Hash, Atomizer.Pending>)
    requires WellKeyed(slot)
    ensures InjectiveOn(KeyValue(slot), slot.Keys) && KeyedBy(SlotValue(slot).entries, slot.Keys, KeyValue(slot))
    ensures forall x | x in slot :: KeyValue(slot)(x) in SlotValue(slot).entries
    ensures forall x | x in slot :: SlotValue(slot).entries[KeyValue(slot)(x)] == IndicesValue(slot[x].attested)
  {
    var f := KeyValue(slot);
    forall x, y | x in slot && y in slot && f(x) == f(y) ensures x == y {
      TxInjective(slot[x].tx, slot[y].tx);
    }
    var m := SlotValue(slot).entries;
    forall x | x in slot ensures f(x) in m && m[f(x)] == IndicesValue(slot[x].attested) {
      assert TxValue(slot[x].tx) in m;
    }
  }

  lemma SlotEntryOk(p: Atomizer.Pending, c: (Layout, Layout))
    requires TxLaid(p.tx, c.0) && IndicesLaid(p.attested, c.1) && SizedTx(p.tx) && SizedIndices(p.attested)
    ensures Holds(COMPACT_TX, c.0, TxValue(p.tx)) && Holds(UnorderedSet(Int(4)), c.1, IndicesValue(p.attested))
  {
    TxOk(p.tx, c.0);
    IndicesOk(p.attested, c.1);
  }

  lemma SlotEntries(slot: map<Hash, Atomizer.Pending>, order: seq<Hash>, c: Layout)
    requires SlotLaid(slot, order, c) && SizedSlot(slot)
    ensures forall i | 0 <= i < |order| ::
      EntryHolds(COMPACT_TX, UnorderedSet(Int(4)), c.entries[i], KeyValue(slot)(order[i]), SlotValue(slot).entries)
  {
    KeysDiffer(slot);
    forall i | 0 <= i < |order|
      ensures EntryHolds(COMPACT_TX, UnorderedSet(Int(4)), c.entries[i], KeyValue(slot)(order[i]),
                         SlotValue(slot).entries)
    {
      assert order[i] in Members(order);
      SlotEntryOk(slot[order[i]], c.entries[i]);
    }
  }

  lemma SlotOk(slot: map<Hash, Atomizer.Pending>, order: seq<Hash>, c: Layout)
    requires SlotLaid(slot, order, c) && SizedSlot(slot)
    ensures Holds(SLOT, c, SlotValue(slot))
  {
    KeysDiffer(slot);
    SlotEntries(slot, order, c);
    HoldsMapped(COMPACT_TX, UnorderedSet(Int(4)), c, order, slot.Keys, KeyValue(slot), SlotValue(slot).entries);
  }

  lemma SlotsOk(txs: seq<map<Hash, Atomizer.Pending>>, c: Layout)
    requires SlotsLaid(txs, c) && |txs| < U64_RANGE && SizedSlots(txs)
    ensures AllWellKeyed(txs) && Holds(Vector(SLOT), c, SlotsValue(txs))
  {
    assert AllWellKeyed(txs);
    forall i | 0 <= i < |txs| ensures Holds(SLOT, c.elems[i], SlotsValue(txs).elems[i]) {
      assert SomeSlotLaid(txs[i], c.elems[i]) && SizedSlot(txs[i]);
      var order :| SlotLaid(txs[i], order, c.elems[i]);
      SlotOk(txs[i], order, c.elems[i]);
    }
    HoldsList(SLOT, c, SlotsValue(txs).elems);
  }

  /** Whatever order the hash tables of the atomizer are walked in, what is written is of the stored type
      and holds the atomizer's data. */
  lemma AtomizerOk(a: Atomizer.State, c: Layout)
    requires AtomizerLaid(a, c) && SizedAtomizer(a)
    ensures Holds(ATOMIZER, c, AtomizerValue(a))
  {
    NumberTyped(a.depth);
    NumberTyped(a.height);
    TxsOk(a.complete, c.b.b.a);
    WindowOk(a.spent, c.b.b.b.a);
    SlotsOk(a.txs, c.b.b.b.b);
    HoldsFive(U64, U64, Vector(COMPACT_TX), Vector(UnorderedSet(HASH)), Vector(SLOT), c,
              Number(a.depth), Number(a.height), TxsValue(a.complete), WindowValue(a.spent), SlotsValue(a.txs));
  }

  lemma HoldsFive(s1: Schema, s2: Schema, s3: Schema, s4: Schema, s5: Schema, c: Layout,
                  v1: Value, v2: Value, v3: Value, v4: Value, v5: Value)
    requires c.LTwo? && c.b.LTwo? && c.b.b.LTwo? && c.b.b.b.LTwo?
    requires Holds(s1, c.a, v1) && Holds(s2, c.b.a, v2) && Holds(s3, c.b.b.a, v3)
    requires Holds(s4, c.b.b.b.a, v4) && Holds(s5, c.b.b.b.b, v5)
    ensures Holds(Pair(s1, Pair(s2, Pair(s3, Pair(s4, s5)))), c, Two(v1, Two(v2, Two(v3, Two(v4, v5)))))
  {
    HoldsTwo(s4, s5, c.b.b.b, v4, v5);
    HoldsTwo(s3, Pair(s4, s5), c.b.b, v3, Two(v4, v5));
    HoldsTwo(s2, Pair(s3, Pair(s4, s5)), c.b, v2, Two(v3, Two(v4, v5)));
    HoldsTwo(s1, Pair(s2, Pair(s3, Pair(s4, s5))), c, v1, Two(v2, Two(v3, Two(v4, v5))));
  }

  function HeightValue(h: nat): Value { Number(h) }

  lemma BlockKeys(blocks: map<nat, Block>)
    ensures InjectiveOn(HeightValue, blocks.Keys) && KeyedBy(BlocksValue(blocks).entries, blocks.Keys, HeightValue)
    ensures forall h | h in blocks :: HeightValue(h) in BlocksValue(blocks).entries
    ensures forall h | h in blocks :: BlocksValue(blocks).entries[HeightValue(h)] == BlockValue(blocks[h])
  {
  }

  lemma BlockEntries(blocks: map<nat, Block>, order: seq<nat>, c: Layout)
    requires BlocksLaid(blocks, order, c) && SizedBlocks(blocks)
    ensures forall i | 0 <= i < |order| ::
      EntryHolds(U64, BLOCK, c.entries[i], HeightValue(order[i]), BlocksValue(blocks).entries)
  {
    BlockKeys(blocks);
    forall i | 0 <= i < |order|
      ensures EntryHolds(U64, BLOCK, c.entries[i], HeightValue(order[i]), BlocksValue(blocks).entries)
    {
      assert order[i] in Members(order);
      NumberTyped(order[i]);
      BlockOk(blocks[order[i]], c.entries[i].1);
    }
  }

  lemma BlocksOk(blocks: map<nat, Block>, order: seq<nat>, c: Layout)
    requires BlocksLaid(blocks, order, c) && SizedBlocks(blocks)
    ensures Holds(UnorderedMap(U64, BLOCK), c, BlocksValue(blocks))
  {
    BlockKeys(blocks);
    BlockEntries(blocks, order, c);
    HoldsMapped(U64, BLOCK, c, order, blocks.Keys, HeightValue, BlocksValue(blocks).entries);
  }

  // ---------------------------------------------------------------- different data, different bytes

  /** Transactions that were written in any order read back as themselves; one byte string starts with one
      transaction only. */
  lemma TxBytesInjective(t: CompactTx, c: Layout, u: CompactTx, d: Layout, rest: seq<byte>, rest': seq<byte>)
    requires TxLaid(t, c) && SizedTx(t) && TxLaid(u, d) && SizedTx(u)
    ensures Typed(COMPACT_TX, c) && Typed(COMPACT_TX, d)
    ensures Encode(COMPACT_TX, c) + rest == Encode(COMPACT_TX, d) + rest' ==> t == u && rest == rest'
  {
    TxOk(t, c);
    TxOk(u, d);
    FormatsReadable();
    if Encode(COMPACT_TX, c) + rest == Encode(COMPACT_TX, d) + rest' {
      Unambiguous(COMPACT_TX, c, d, rest, rest');
      TxInjective(t, u);
    }
  }

  lemma BlockBytesInjective(t: Block, c: Layout, u: Block, d: Layout, rest: seq<byte>, rest': seq<byte>)
    requires BlockLaid(t, c) && SizedBlock(t) && BlockLaid(u, d) && SizedBlock(u)
    ensures Typed(BLOCK, c) && Typed(BLOCK, d)
    ensures Encode(BLOCK, c) + rest == Encode(BLOCK, d) + rest' ==> t == u && rest == rest'
  {
    BlockOk(t, c);
    BlockOk(u, d);
    FormatsReadable();
    if Encode(BLOCK, c) + rest == Encode(BLOCK, d) + rest' {
      Unambiguous(BLOCK, c, d, rest, rest');
      TxsInjective(t.txs, u.txs);
    }
  }

  /** Atomizers that serialize to the same bytes, in whatever order, are equal. */
  lemma AtomizerBytesInjective(a: Atomizer.State, c: Layout, b: Atomizer.State, d: Layout,
                               rest: seq<byte>, rest': seq<byte>)
    requires AtomizerLaid(a, c) && SizedAtomizer(a) && AtomizerLaid(b, d) && SizedAtomizer(b)
    ensures Typed(ATOMIZER, c) && Typed(ATOMIZER, d)
    ensures Encode(ATOMIZER, c) + rest == Encode(ATOMIZER, d) + rest' ==> a == b && rest == rest'
  {
    AtomizerOk(a, c);
    AtomizerOk(b, d);
    FormatsReadable();
    if Encode(ATOMIZER, c) + rest == Encode(ATOMIZER, d) + rest' {
      Unambiguous(ATOMIZER, c, d, rest, rest');
      AtomizerInjective(a, b);
    }
  }

  // ---------------------------------------------------------------- there is always a layout

  ghost function Enumerate<T>(s: set<T>): (order: seq<T>)
    ensures Orders(order, s)
  {
    if s == {} then []
    else
      var x :| x in s;
      var rest := Enumerate(s - {x});
      assert forall i | 0 <= i < |rest| :: rest[i] in Members(rest);
      assert Members([x] + rest) == {x} + Members(rest);
      [x] + rest
  }

  ghost function SomeTx(t: CompactTx): (c: Layout)
    ensures TxLaid(t, c)
  {
    var m, order := t.attestations, Enumerate(t.attestations.Keys);
    assert forall i | 0 <= i < |order| :: order[i] in Members(order);
    var sigs := LMap(seq(|order|, i requires 0 <= i < |order| => (LBytes(order[i]), LBytes(m[order[i]]))));
    assert AttestationsLaid(m, order, sigs);
    LTwo(LBytes(t.id), LTwo(HashesLayout(t.inputs), LTwo(HashesLayout(t.outputs), sigs)))
  }

  ghost function SomeTxs(ts: seq<CompactTx>): (c: Layout)
    ensures TxsLaid(ts, c)
  {
    LList(seq(|ts|, i requires 0 <= i < |ts| => SomeTx(ts[i])))
  }

  ghost function SomeBlock(b: Block): (c: Layout)
    ensures BlockLaid(b, c)
  {
    LTwo(LNumber(b.height), SomeTxs(b.txs))
  }

  ghost function SomeIds(s: set<Hash>): (c: Layout)
    ensures IdsLaid(s, c)
  {
    LSet(ByteLayouts(Enumerate(s)))
  }

  ghost function SomeWindow(w: seq<set<Hash>>): (c: Layout)
    ensures WindowLaid(w, c)
  {
    LList(seq(|w|, i requires 0 <= i < |w| => SomeIds(w[i])))
  }

  ghost function SomeIndices(s: set<nat>): (c: Layout)
    ensures IndicesLaid(s, c)
  {
    LSet(NumberLayouts(Enumerate(s)))
  }

  ghost function SomeSlot(slot: map<Hash, Atomizer.Pending>): (c: Layout)
    ensures SomeSlotLaid(slot, c)
  {
    var order := Enumerate(slot.Keys);
    assert forall i | 0 <= i < |order| :: order[i] in Members(order);
    var c := LMap(seq(|order|, i requires 0 <= i < |order| =>
                  (SomeTx(slot[order[i]].tx), SomeIndices(slot[order[i]].attested))));
    assert SlotLaid(slot, order, c);
    c
  }

  ghost function SomeSlots(txs: seq<map<Hash, Atomizer.Pending>>): (c: Layout)
    ensures SlotsLaid(txs, c)
  {
    LList(seq(|txs|, i requires 0 <= i < |txs| => SomeSlot(txs[i])))
  }

  ghost function SomeAtomizer(a: Atomizer.State): (c: Layout)
    ensures AtomizerLaid(a, c)
  {
    LTwo(LNumber(a.depth),
         LTwo(LNumber(a.height), LTwo(SomeTxs(a.complete), LTwo(SomeWindow(a.spent), SomeSlots(a.txs)))))
  }

  lemma SomeBlocks(blocks: map<nat, Block>) returns (order: seq<nat>, c: Layout)
    ensures BlocksLaid(blocks, order, c)
  {
    order := Enumerate(blocks.Keys);
    assert forall i | 0 <= i < |order| :: order[i] in Members(order);
    c := LMap(seq(|order|, i requires 0 <= i < |order| => (LNumber(order[i]), SomeBlock(blocks[order[i]]))));
  }
}

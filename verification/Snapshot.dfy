/** Snapshots of the state machine on disk, and recovery from them. */
module Snapshot {
  import opened Common
  import opened Codec
  import opened Serialization
  import opened Messages
  import opened Layouts
  import Atomizer
  import StateMachine

  /** Raft's own description of the snapshot comes first, as a counted byte string. */
  const SNAPSHOT := Pair(Vector(Int(1)), Pair(ATOMIZER, UnorderedMap(U64, BLOCK)))

  ghost predicate Storable(s: StateMachine.State) {
    s.Valid() && AllWellKeyed(s.atomizer.txs)
  }

  /** Every field fits into its place in the file. */
  ghost predicate Sized(s: StateMachine.State) {
    SizedAtomizer(s.atomizer) && SizedBlocks(s.blocks)
  }

  function MetaValue(meta: seq<byte>): Value {
    List(seq(|meta|, i requires 0 <= i < |meta| => Number(meta[i] as nat)))
  }

  ghost function SnapshotValue(meta: seq<byte>, s: StateMachine.State): Value
    requires Storable(s)
  {
    Two(MetaValue(meta), Two(AtomizerValue(s.atomizer), BlocksValue(s.blocks)))
  }

  function MetaLayout(meta: seq<byte>): Layout {
    LList(seq(|meta|, i requires 0 <= i < |meta| => LNumber(meta[i] as nat)))
  }

  /** A walk over the snapshot: raft's description, the atomizer, and the cached blocks. */
  ghost predicate SnapshotLaid(meta: seq<byte>, s: StateMachine.State, order: seq<nat>, c: Layout) {
    && |meta| < U64_RANGE && c.LTwo? && c.b.LTwo?
    && c.a == MetaLayout(meta) && AtomizerLaid(s.atomizer, c.b.a) && BlocksLaid(s.blocks, order, c.b.b)
  }

  lemma MetaOk(meta: seq<byte>)
    requires |meta| < U64_RANGE
    ensures Holds(Vector(Int(1)), MetaLayout(meta), MetaValue(meta))
  {
    assert Pow256(1) == 256;
    HoldsList(Int(1), MetaLayout(meta), MetaValue(meta).elems);
  }

  /** Whatever order the hash tables are walked in, the walk is of the file's type and holds the snapshot's
      data. */
  lemma SnapshotOk(meta: seq<byte>, s: StateMachine.State, order: seq<nat>, c: Layout)
    requires SnapshotLaid(meta, s, order, c) && Sized(s)
    ensures Storable(s) && Typed(SNAPSHOT, c) && Abs(c) == SnapshotValue(meta, s)
  {
    MetaOk(meta);
    AtomizerOk(s.atomizer, c.b.a);
    BlocksOk(s.blocks, order, c.b.b);
    HoldsTwo(ATOMIZER, UnorderedMap(U64, BLOCK), c.b, AtomizerValue(s.atomizer), BlocksValue(s.blocks));
    HoldsTwo(Vector(Int(1)), Pair(ATOMIZER, UnorderedMap(U64, BLOCK)), c, MetaValue(meta), Abs(c.b));
  }

  /** `file` is what writing a snapshot of `s` produces for some order of its hash tables. */
  ghost predicate Saved(file: seq<byte>, s: StateMachine.State) {
    exists meta: seq<byte>, order: seq<nat>, c: Layout :: SavedAs(file, meta, s, order, c)
  }

  ghost predicate SavedAs(file: seq<byte>, meta: seq<byte>, s: StateMachine.State, order: seq<nat>, c: Layout) {
    Sized(s) && SnapshotLaid(meta, s, order, c) && Typed(SNAPSHOT, c) && file == Encode(SNAPSHOT, c)
  }

  /** A state whose fields fit can be saved, in every order of its hash tables, and there is one. */
  lemma EveryStateSaves(meta: seq<byte>, s: StateMachine.State)
    requires Sized(s) && |meta| < U64_RANGE
    ensures forall order, c | SnapshotLaid(meta, s, order, c) :: Typed(SNAPSHOT, c) && Saved(Encode(SNAPSHOT, c), s)
    ensures exists file :: Saved(file, s)
  {
    forall order, c | SnapshotLaid(meta, s, order, c) ensures Typed(SNAPSHOT, c) && Saved(Encode(SNAPSHOT, c), s) {
      SnapshotOk(meta, s, order, c);
      assert SavedAs(Encode(SNAPSHOT, c), meta, s, order, c);
    }
    var order, blocks := SomeBlocks(s.blocks);
    var c := LTwo(MetaLayout(meta), LTwo(SomeAtomizer(s.atomizer), blocks));
    assert SnapshotLaid(meta, s, order, c);
    assert Saved(Encode(SNAPSHOT, c), s);
  }

  /** Reading `file` as the snapshot at log index `index` yields `s`. */
  ghost predicate Restored(file: seq<byte>, index: nat, s: StateMachine.State) {
    && Storable(s) && s.index == index && Readable(SNAPSHOT)
    && exists meta: seq<byte>, rest: seq<byte> :: Decode(SNAPSHOT, file) == Some((SnapshotValue(meta, s), rest))
  }

  lemma DecodeEncoded(schema: Schema, c: Layout)
    requires Readable(schema) && Typed(schema, c)
    ensures Decode(schema, Encode(schema, c)) == Some((Abs(c), []))
  {
    RoundTrip(schema, c);
    assert Encode(schema, c) + [] == Encode(schema, c);
    assert Decoder(schema)(Encode(schema, c)) == Some((Abs(c), []));
  }

  lemma SnapshotInjective(meta: seq<byte>, meta': seq<byte>, s: StateMachine.State, t: StateMachine.State)
    requires Storable(s) && Storable(t) && s.index == t.index
    requires SnapshotValue(meta, s) == SnapshotValue(meta', t)
    ensures s == t
  {
    AtomizerInjective(s.atomizer, t.atomizer);
    BlocksInjective(s.blocks, t.blocks);
  }

  /** A saved snapshot restores the state it was taken from, and no other. */
  lemma SaveRestore(file: seq<byte>, s: StateMachine.State, t: StateMachine.State)
    requires Saved(file, s)
    ensures Restored(file, s.index, s)
    ensures Restored(file, s.index, t) ==> t == s
  {
    var meta: seq<byte>, order: seq<nat>, c: Layout :| SavedAs(file, meta, s, order, c);
    SnapshotOk(meta, s, order, c);
    SchemaReadable();
    DecodeEncoded(SNAPSHOT, c);
    if Restored(file, s.index, t) {
      var meta', rest :| Decode(SNAPSHOT, file) == Some((SnapshotValue(meta', t), rest));
      SnapshotInjective(meta, meta', s, t);
    }
  }

  // ---------------------------------------------------------------- replaying the log

  ghost predicate Replayable(s: StateMachine.State, log: seq<StateMachine.Command>) {
    Storable(s) && s.atomizer.height + |log| < U64_RANGE
  }

  ghost function Apply(s: StateMachine.State, log: seq<StateMachine.Command>): (r: StateMachine.State)
    requires Replayable(s, log)
    ensures Storable(r)
    ensures r.index == s.index + |log| && r.atomizer.height <= s.atomizer.height + |log|
    decreases |log|
  {
    if log == [] then s
    else
      CommitStorable(s, log[0]);
      Apply(StateMachine.Commit(s, log[0]).0, log[1..])
  }

  lemma {:induction false} InsertAllKeepsSlots(a: Atomizer.State, batch: seq<StateMachine.FrontEnd.Aggregate>)
    requires a.Valid()
    ensures var b := StateMachine.InsertAll(a, batch).0; b.txs == a.txs && b.height == a.height
  {
    if batch != [] {
      InsertAllKeepsSlots(a, batch[..|batch| - 1]);
    }
  }

  lemma CommitStorable(s: StateMachine.State, cmd: StateMachine.Command)
    requires Storable(s) && s.atomizer.height + 1 < U64_RANGE
    ensures var t := StateMachine.Commit(s, cmd).0;
            Storable(t) && t.index == s.index + 1 && t.atomizer.height <= s.atomizer.height + 1
  {
    if cmd.AggregateTxs? {
      InsertAllKeepsSlots(s.atomizer, cmd.batch);
    }
  }

  lemma {:induction false} ApplyAppend(s: StateMachine.State, a: seq<StateMachine.Command>,
                                       b: seq<StateMachine.Command>)
    requires Replayable(s, a + b)
    ensures Replayable(Apply(s, a), b) && Apply(s, a + b) == Apply(Apply(s, a), b)
    decreases |a|
  {
    if a == [] {
      assert a + b == b;
    } else {
      assert (a + b)[1..] == a[1..] + b;
      CommitStorable(s, a[0]);
      ApplyAppend(StateMachine.Commit(s, a[0]).0, a[1..], b);
    }
  }

  // ---------------------------------------------------------------- the snapshot directory

  type Directory = map<nat, seq<byte>>

  /** Creating a snapshot removes the older ones. */
  function Create(dir: Directory, index: nat, file: seq<byte>): Directory {
    map i | i in dir.Keys + {index} && i >= index :: if i == index then file else dir[i]
  }

  /** The highest index present; 0 when there is none. */
  ghost predicate IsLatest(dir: Directory, i: nat) {
    i in dir && i > 0 && forall j | j in dir :: j <= i
  }

  lemma CreatedIsLatest(dir: Directory, index: nat, file: seq<byte>)
    requires index > 0 && forall j | j in dir :: j <= index
    ensures IsLatest(Create(dir, index, file), index) && Create(dir, index, file) == map[index := file]
  {
  }

  lemma ApplyCut(start: StateMachine.State, log: seq<StateMachine.Command>, n: nat)
    requires n <= |log| && Replayable(start, log)
    ensures Replayable(Apply(start, log[..n]), log[n..])
    ensures Apply(Apply(start, log[..n]), log[n..]) == Apply(start, log)
  {
    assert log == log[..n] + log[n..];
    ApplyAppend(start, log[..n], log[n..]);
  }

  lemma SchemaReadable()
    ensures Readable(SNAPSHOT)
  {
    FormatsReadable();
    PairsReadable(Vector(Int(1)), ATOMIZER, UnorderedMap(U64, BLOCK));
  }

  lemma InitialReplayable(depth: nat, log: seq<StateMachine.Command>)
    requires depth + 1 < U64_RANGE && |log| < U64_RANGE
    ensures StateMachine.Initial(depth).index == 0 && Replayable(StateMachine.Initial(depth), log)
  {
  }

  // ---------------------------------------------------------------- sizes over a log

  function TxLoad(batch: seq<StateMachine.FrontEnd.Aggregate>): nat {
    if batch == [] then 0 else TxLoad(batch[..|batch| - 1]) + 1 + |batch[|batch| - 1].tx.inputs|
  }

  function CommandLoad(cmd: StateMachine.Command): nat {
    if cmd.AggregateTxs? then TxLoad(cmd.batch) else 0
  }

  /** How many transactions and inputs a log carries. */
  function LogLoad(log: seq<StateMachine.Command>): nat {
    if log == [] then 0 else CommandLoad(log[0]) + LogLoad(log[1..])
  }

  ghost predicate SizedCommand(cmd: StateMachine.Command) {
    cmd.AggregateTxs? ==> forall i | 0 <= i < |cmd.batch| :: SizedTx(cmd.batch[i].tx)
  }

  /** Commands whose fields fit, and fewer than 2^64 of them, with fewer than 2^64 transactions and inputs. */
  ghost predicate SizedLog(log: seq<StateMachine.Command>) {
    && |log| < U64_RANGE && LogLoad(log) < U64_RANGE
    && forall k | 0 <= k < |log| :: SizedCommand(log[k])
  }

  ghost predicate AtomizerWithin(a: Atomizer.State, n: nat) {
    && a.Valid() && SizedSlots(a.txs) && |a.complete| <= n
    && (forall i | 0 <= i < |a.complete| :: SizedTx(a.complete[i]))
    && (forall o | 0 <= o < |a.spent| :: |a.spent[o]| <= n)
  }

  ghost predicate BlockWithin(b: Block, n: nat) {
    b.height < U64_RANGE && |b.txs| <= n && forall i | 0 <= i < |b.txs| :: SizedTx(b.txs[i])
  }

  ghost predicate Within(s: StateMachine.State, n: nat) {
    && AtomizerWithin(s.atomizer, n) && |s.blocks| <= s.index
    && forall h | h in s.blocks :: h < U64_RANGE && BlockWithin(s.blocks[h], n)
  }

  lemma InputSetSize(tx: CompactTx)
    ensures |tx.InputSet()| <= |tx.inputs|
  {
    SetSize(tx.inputs);
  }

  lemma {:induction false} SetSize(xs: seq<Hash>)
    ensures |set x | x in xs| <= |xs|
  {
    if xs != [] {
      var n := |xs| - 1;
      SetSize(xs[..n]);
      assert xs == xs[..n] + [xs[n]];
      assert (set x | x in xs) == (set x | x in xs[..n]) + {xs[n]};
    }
  }

  lemma InsertWithin(a: Atomizer.State, n: nat, oldest: nat, tx: CompactTx)
    requires AtomizerWithin(a, n) && SizedTx(tx)
    ensures AtomizerWithin(Atomizer.InsertComplete(a, oldest, tx).0, n + 1 + |tx.inputs|)
  {
    InputSetSize(tx);
    assert |a.spent[0] + tx.InputSet()| <= |a.spent[0]| + |tx.InputSet()|;
  }

  lemma {:induction false} BatchWithin(a: Atomizer.State, n: nat, batch: seq<StateMachine.FrontEnd.Aggregate>)
    requires AtomizerWithin(a, n) && forall i | 0 <= i < |batch| :: SizedTx(batch[i].tx)
    ensures AtomizerWithin(StateMachine.InsertAll(a, batch).0, n + TxLoad(batch))
  {
    if batch != [] {
      var k := |batch| - 1;
      BatchWithin(a, n, batch[..k]);
      InsertWithin(StateMachine.InsertAll(a, batch[..k]).0, n + TxLoad(batch[..k]), batch[k].oldest, batch[k].tx);
    }
  }

  lemma RotateWithin(a: Atomizer.State, n: nat)
    requires AtomizerWithin(a, n) && a.height + 1 < U64_RANGE
    ensures AtomizerWithin(Atomizer.Rotate(a), n) && BlockWithin(Atomizer.NextBlock(a), n)
  {
  }

  lemma KeptSize(blocks: map<nat, Block>, height: nat)
    ensures |StateMachine.Kept(blocks, height)| <= |blocks|
  {
    var kept := StateMachine.Kept(blocks, height);
    assert kept.Keys <= blocks.Keys;
    SubsetSize(kept.Keys, blocks.Keys);
  }

  lemma CacheWithin(s: StateMachine.State, n: nat)
    requires Within(s, n) && s.atomizer.height + 1 < U64_RANGE
    ensures Within(StateMachine.Commit(s, StateMachine.MakeBlock).0, n)
  {
    RotateWithin(s.atomizer, n);
    var blk := Atomizer.NextBlock(s.atomizer);
    var more := StateMachine.Cache(s.blocks, blk);
    assert more.Keys == s.blocks.Keys + {blk.height};
    assert |more| == |more.Keys|;
  }

  lemma KeptWithin(s: StateMachine.State, n: nat, h: nat)
    requires Within(s, n)
    ensures Within(StateMachine.Commit(s, StateMachine.Prune(h)).0, n)
  {
    KeptSize(s.blocks, h);
  }

  lemma CommitWithin(s: StateMachine.State, n: nat, cmd: StateMachine.Command)
    requires Within(s, n) && SizedCommand(cmd) && s.atomizer.height + 1 < U64_RANGE
    ensures Within(StateMachine.Commit(s, cmd).0, n + CommandLoad(cmd))
  {
    match cmd
    case AggregateTxs(batch) =>
      BatchWithin(s.atomizer, n, batch);
      MoreIsWithin(s.blocks, n, n + TxLoad(batch));
    case MakeBlock => CacheWithin(s, n);
    case GetBlock(_) =>
    case Prune(h) => KeptWithin(s, n, h);
  }

  lemma MoreIsWithin(blocks: map<nat, Block>, m: nat, n: nat)
    requires m <= n
    ensures forall h | h in blocks && BlockWithin(blocks[h], m) :: BlockWithin(blocks[h], n)
  {
  }

  lemma {:induction false} ApplyWithin(s: StateMachine.State, n: nat, log: seq<StateMachine.Command>)
    requires Replayable(s, log) && Within(s, n) && forall k | 0 <= k < |log| :: SizedCommand(log[k])
    ensures Within(Apply(s, log), n + LogLoad(log))
    decreases |log|
  {
    if log != [] {
      CommitStorable(s, log[0]);
      CommitWithin(s, n, log[0]);
      ApplyWithin(StateMachine.Commit(s, log[0]).0, n + CommandLoad(log[0]), log[1..]);
    }
  }

  lemma {:induction false} LoadOfPart(log: seq<StateMachine.Command>, n: nat)
    requires n <= |log|
    ensures LogLoad(log[..n]) <= LogLoad(log)
  {
    if n > 0 {
      LoadOfPart(log[1..], n - 1);
      assert log[..n][1..] == log[1..][..n - 1];
    }
  }

  /** The state after the first `n` commands of a log. */
  ghost function Reached(depth: nat, log: seq<StateMachine.Command>, n: nat): StateMachine.State
    requires depth + 1 < U64_RANGE && n <= |log| < U64_RANGE
  {
    InitialReplayable(depth, log[..n]);
    Apply(StateMachine.Initial(depth), log[..n])
  }

  lemma ReachedIsSized(depth: nat, log: seq<StateMachine.Command>, n: nat)
    requires depth + 1 < U64_RANGE && SizedLog(log) && n <= |log|
    ensures Sized(Reached(depth, log, n))
  {
    var start := StateMachine.Initial(depth);
    InitialReplayable(depth, log[..n]);
    assert Within(start, 0);
    ApplyWithin(start, 0, log[..n]);
    LoadOfPart(log, n);
  }

  // ---------------------------------------------------------------- recovery

  /** Take a snapshot after `n` commands, whatever order the hash tables are written in. It becomes the
      latest in its directory and can be read back; and whatever state is read back, committing the rest of
      the log to it gives the state that committing the whole log from the start gives. */
  lemma SnapshotPlusSuffix(depth: nat, log: seq<StateMachine.Command>, n: nat, dir: Directory, file: seq<byte>,
                           restored: StateMachine.State)
    requires depth + 1 < U64_RANGE && 0 < n <= |log| < U64_RANGE && forall j | j in dir :: j <= n
    requires Saved(file, Reached(depth, log, n))
    ensures IsLatest(Create(dir, n, file), n) && Create(dir, n, file)[n] == file
    ensures Restored(file, n, Reached(depth, log, n))
    ensures Restored(file, n, restored) ==>
      Replayable(restored, log[n..]) && Apply(restored, log[n..]) == Reached(depth, log, |log|)
  {
    CreatedIsLatest(dir, n, file);
    InitialReplayable(depth, log);
    ApplyCut(StateMachine.Initial(depth), log, n);
    assert log[..|log|] == log;
    SaveRestore(file, Reached(depth, log, n), restored);
  }

  /** There is such a snapshot at every point of every log whose fields fit. */
  lemma SnapshotExists(depth: nat, log: seq<StateMachine.Command>, n: nat)
    requires depth + 1 < U64_RANGE && SizedLog(log) && n <= |log|
    ensures exists file :: Saved(file, Reached(depth, log, n))
  {
    ReachedIsSized(depth, log, n);
    EveryStateSaves([], Reached(depth, log, n));
  }
}

/** What every run of the pipeline keeps, and why no id is spent twice. */
module Safety {
  import opened Common
  import opened Ledger
  import opened Shard
  import opened Settlement
  import opened Window
  import FrontEnd
  import Atomizer
  import Archiver
  import StateMachine

  /** What sentinels sign: transactions with distinct inputs and outputs, whose ids do not collide. */
  ghost predicate Honest(c: Config) {
    && c.depth + 1 < U64_RANGE
    && (forall t | FrontEnd.CheckAttestations(c.sentinels, t) ::
          Distinct(t.inputs) && Distinct(t.outputs) && t.OutputSet() !! c.genesis)
    && (forall s, t | FrontEnd.CheckAttestations(c.sentinels, s) && FrontEnd.CheckAttestations(c.sentinels, t) ::
          SameOrigin(s, t))
  }

  /** `x` was unspent at height `h`. */
  ghost predicate Existed(c: Config, chain: seq<Block>, x: Hash, h: nat) {
    1 <= h <= |chain| && x in Replay(c.genesis, chain[..h])
  }

  /** Index `i` of `tx` was rightly attested at height `h`. */
  ghost predicate Vouched(c: Config, chain: seq<Block>, tx: CompactTx, i: nat, h: nat) {
    i < |tx.inputs| && Existed(c, chain, tx.inputs[i], h)
  }

  ghost predicate SliceAt(c: Config, chain: seq<Block>, i: nat, snap: Snapshot) {
    && i < |c.ranges| && snap.height <= |chain|
    && snap.uhs == c.ranges[i].Restrict(Replay(c.genesis, chain[..snap.height]))
  }

  ghost predicate ShardsOk(c: Config, chain: seq<Block>, shards: seq<Snapshot>, captured: set<(nat, Snapshot)>) {
    && |shards| == |c.ranges|
    && (forall i | 0 <= i < |shards| :: SliceAt(c, chain, i, shards[i]))
    && (forall p | p in captured :: SliceAt(c, chain, p.0, p.1))
  }

  ghost predicate NoteOk(c: Config, chain: seq<Block>, n: Notification) {
    forall i | i in n.attested :: Vouched(c, chain, n.tx, i, n.height)
  }

  ghost predicate NotesOk(c: Config, chain: seq<Block>, notes: set<Notification>) {
    forall n | n in notes :: NoteOk(c, chain, n)
  }

  ghost predicate GatheringOk(c: Config, chain: seq<Block>, id: Hash, g: FrontEnd.Gathering) {
    && g.tx.id == id && FrontEnd.CheckAttestations(c.sentinels, g.tx)
    && (forall i | i in g.heights :: Vouched(c, chain, g.tx, i, g.heights[i]))
  }

  /** Some height no older than `oldest` at which `x` was unspent. */
  ghost predicate LiveSince(c: Config, chain: seq<Block>, x: Hash, oldest: nat) {
    exists h :: oldest <= h && Existed(c, chain, x, h)
  }

  ghost predicate AggregateOk(c: Config, chain: seq<Block>, g: FrontEnd.Aggregate) {
    && FrontEnd.CheckAttestations(c.sentinels, g.tx)
    && g.oldest <= |chain|
    && (forall x | x in g.tx.inputs :: LiveSince(c, chain, x, g.oldest))
  }

  ghost predicate BatchOk(c: Config, chain: seq<Block>, batch: seq<FrontEnd.Aggregate>) {
    forall g | g in batch :: AggregateOk(c, chain, g)
  }

  ghost predicate ReplicaOk(c: Config, chain: seq<Block>, f: FrontEnd.State) {
    && (forall id | id in f.pending :: GatheringOk(c, chain, id, f.pending[id]))
    && BatchOk(c, chain, f.complete)
  }

  ghost predicate ReplicasOk(c: Config, chain: seq<Block>, replicas: seq<FrontEnd.State>) {
    forall r | 0 <= r < |replicas| :: ReplicaOk(c, chain, replicas[r])
  }

  ghost predicate BatchesOk(c: Config, chain: seq<Block>, batches: set<seq<FrontEnd.Aggregate>>) {
    forall b | b in batches :: BatchOk(c, chain, b)
  }

  ghost predicate HistoryOk(c: Config, a: Atomizer.State, chain: seq<Block>) {
    && Tracks(a, chain) && a.depth == c.depth
    && Sound(c.genesis, History(a, chain))
    && (forall t | t in History(a, chain) :: FrontEnd.CheckAttestations(c.sentinels, t))
  }

  /** Blocks on the network and in the cache are blocks of the chain; the archiver holds a prefix of the
      chain, and what it has not stored is still cached. */
  ghost predicate BlocksOk(chain: seq<Block>, cache: map<nat, Block>, broadcast: set<Block>,
                           a: Archiver.State, requests: set<Archiver.Request>)
  {
    && Archiver.ChainHeights(chain)
    && (forall h | h in cache :: 1 <= h <= |chain| && cache[h] == chain[h - 1])
    && (forall b | b in broadcast :: 1 <= b.height <= |chain| && b == chain[b.height - 1])
    && ArchiverOk(chain, a, requests)
    && (forall h | 1 <= h <= |chain| && a.best <= h :: h in cache)
  }

  ghost predicate ArchiverOk(chain: seq<Block>, a: Archiver.State, requests: set<Archiver.Request>) {
    && a.Valid() && Archiver.FromChain(a, chain) && Archiver.AtRest(a)
    && (forall h | h in a.deferred :: h > a.best)
    && Archiver.Requested(a, requests)
  }

  ghost predicate Inv(c: Config, s: System) {
    && HistoryOk(c, s.machine.atomizer, s.chain)
    && ShardsOk(c, s.chain, s.shards, s.captured)
    && NotesOk(c, s.chain, s.notifications)
    && ReplicasOk(c, s.chain, s.replicas)
    && BatchesOk(c, s.chain, s.batches)
    && BlocksOk(s.chain, s.machine.blocks, s.broadcast, s.archiver, s.requests)
  }

  // ---------------------------------------------------------------- a longer chain keeps what was said

  lemma ExistedGrows(c: Config, chain: seq<Block>, blk: Block, x: Hash, h: nat)
    requires Existed(c, chain, x, h)
    ensures Existed(c, chain + [blk], x, h)
  {
    assert (chain + [blk])[..h] == chain[..h];
  }

  lemma VouchedGrows(c: Config, chain: seq<Block>, blk: Block, tx: CompactTx, i: nat, h: nat)
    requires Vouched(c, chain, tx, i, h)
    ensures Vouched(c, chain + [blk], tx, i, h)
  {
    ExistedGrows(c, chain, blk, tx.inputs[i], h);
  }

  lemma SliceGrows(c: Config, chain: seq<Block>, blk: Block, i: nat, snap: Snapshot)
    requires SliceAt(c, chain, i, snap)
    ensures SliceAt(c, chain + [blk], i, snap)
  {
    assert (chain + [blk])[..snap.height] == chain[..snap.height];
  }

  lemma ShardsGrow(c: Config, chain: seq<Block>, blk: Block, shards: seq<Snapshot>, captured: set<(nat, Snapshot)>)
    requires ShardsOk(c, chain, shards, captured)
    ensures ShardsOk(c, chain + [blk], shards, captured)
  {
    forall i | 0 <= i < |shards| ensures SliceAt(c, chain + [blk], i, shards[i]) {
      SliceGrows(c, chain, blk, i, shards[i]);
    }
    forall p | p in captured ensures SliceAt(c, chain + [blk], p.0, p.1) {
      SliceGrows(c, chain, blk, p.0, p.1);
    }
  }

  lemma NotesGrow(c: Config, chain: seq<Block>, blk: Block, notes: set<Notification>)
    requires NotesOk(c, chain, notes)
    ensures NotesOk(c, chain + [blk], notes)
  {
    forall n, i | n in notes && i in n.attested ensures Vouched(c, chain + [blk], n.tx, i, n.height) {
      assert NoteOk(c, chain, n);
      VouchedGrows(c, chain, blk, n.tx, i, n.height);
    }
  }

  lemma BatchGrows(c: Config, chain: seq<Block>, blk: Block, batch: seq<FrontEnd.Aggregate>)
    requires BatchOk(c, chain, batch)
    ensures BatchOk(c, chain + [blk], batch)
  {
    forall g | g in batch ensures AggregateOk(c, chain + [blk], g) {
      assert AggregateOk(c, chain, g);
      forall x | x in g.tx.inputs ensures LiveSince(c, chain + [blk], x, g.oldest) {
        assert LiveSince(c, chain, x, g.oldest);
        var h :| g.oldest <= h && Existed(c, chain, x, h);
        ExistedGrows(c, chain, blk, x, h);
      }
    }
  }

  lemma ReplicasGrow(c: Config, chain: seq<Block>, blk: Block, replicas: seq<FrontEnd.State>)
    requires ReplicasOk(c, chain, replicas)
    ensures ReplicasOk(c, chain + [blk], replicas)
  {
    forall r | 0 <= r < |replicas| ensures ReplicaOk(c, chain + [blk], replicas[r]) {
      var f := replicas[r];
      assert ReplicaOk(c, chain, f);
      BatchGrows(c, chain, blk, f.complete);
      forall id | id in f.pending ensures GatheringOk(c, chain + [blk], id, f.pending[id]) {
        var g := f.pending[id];
        assert GatheringOk(c, chain, id, g);
        forall i | i in g.heights ensures Vouched(c, chain + [blk], g.tx, i, g.heights[i]) {
          VouchedGrows(c, chain, blk, g.tx, i, g.heights[i]);
        }
      }
    }
  }

  lemma BatchesGrow(c: Config, chain: seq<Block>, blk: Block, batches: set<seq<FrontEnd.Aggregate>>)
    requires BatchesOk(c, chain, batches)
    ensures BatchesOk(c, chain + [blk], batches)
  {
    forall b | b in batches ensures BatchOk(c, chain + [blk], b) {
      BatchGrows(c, chain, blk, b);
    }
  }

  // ---------------------------------------------------------------- shards and notifications

  /** An answer given from any slice, however old, vouches truthfully. */
  lemma AttestOk(c: Config, chain: seq<Block>, i: nat, snap: Snapshot, tx: CompactTx)
    requires SliceAt(c, chain, i, snap)
    requires DigestTransaction(c.ranges[i], snap, tx).Notify?
    ensures NoteOk(c, chain, DigestTransaction(c.ranges[i], snap, tx).msg)
  {
  }

  lemma DigestOk(c: Config, chain: seq<Block>, i: nat, snap: Snapshot, blk: Block)
    requires SliceAt(c, chain, i, snap)
    requires 1 <= blk.height <= |chain| && blk == chain[blk.height - 1]
    ensures SliceAt(c, chain, i, Digest(c.ranges[i], snap, blk))
  {
    if blk.height == snap.height + 1 {
      DigestKeepsSlice(c.ranges[i], c.genesis, chain[..snap.height], blk, snap.uhs);
      assert chain[..blk.height] == chain[..snap.height] + [blk];
    }
  }

  // ---------------------------------------------------------------- gathering

  lemma GatherOk(c: Config, chain: seq<Block>, f: FrontEnd.State, n: Notification)
    requires Honest(c) && ReplicaOk(c, chain, f) && NoteOk(c, chain, n)
    requires FrontEnd.CheckAttestations(c.sentinels, n.tx)
    ensures GatheringOk(c, chain, n.tx.id, FrontEnd.Gather(f, n))
  {
    var g := FrontEnd.Gather(f, n);
    if n.tx.id in f.pending {
      assert GatheringOk(c, chain, n.tx.id, f.pending[n.tx.id]);
      assert SameOrigin(g.tx, n.tx);
    }
    forall i | i in g.heights ensures Vouched(c, chain, g.tx, i, g.heights[i]) {
      if i in n.attested { assert Vouched(c, chain, n.tx, i, n.height); }
    }
  }

  /** With one recorded height per input there is one for each, and the lowest bounds them all. */
  lemma CompleteOk(c: Config, chain: seq<Block>, id: Hash, g: FrontEnd.Gathering)
    requires GatheringOk(c, chain, id, g) && |g.heights| == |g.tx.inputs|
    ensures AggregateOk(c, chain, FrontEnd.Aggregate(g.tx, FrontEnd.Oldest(g.heights)))
  {
    if g.heights == map[] {
      assert forall h: nat :: !FrontEnd.IsOldest(g.heights, h);
    } else {
      OldestVouched(c, chain, id, g);
      forall x | x in g.tx.inputs ensures LiveSince(c, chain, x, FrontEnd.Oldest(g.heights)) {
        var i :| 0 <= i < |g.tx.inputs| && g.tx.inputs[i] == x;
        InputVouched(c, chain, id, g, i);
      }
    }
  }

  lemma OldestVouched(c: Config, chain: seq<Block>, id: Hash, g: FrontEnd.Gathering)
    requires GatheringOk(c, chain, id, g) && g.heights != map[]
    ensures FrontEnd.Oldest(g.heights) <= |chain|
  {
    FrontEnd.OldestExists(g.heights);
    var i :| i in g.heights && g.heights[i] == FrontEnd.Oldest(g.heights);
    assert Vouched(c, chain, g.tx, i, g.heights[i]);
  }

  /** Once every input is attested, each was live at a height no older than the oldest. */
  lemma InputVouched(c: Config, chain: seq<Block>, id: Hash, g: FrontEnd.Gathering, i: nat)
    requires GatheringOk(c, chain, id, g) && |g.heights| == |g.tx.inputs| && i < |g.tx.inputs|
    ensures LiveSince(c, chain, g.tx.inputs[i], FrontEnd.Oldest(g.heights))
  {
    forall k | k in g.heights.Keys ensures k < |g.tx.inputs| {
      assert Vouched(c, chain, g.tx, k, g.heights[k]);
    }
    Atomizer.FullCount(g.heights.Keys, |g.tx.inputs|);
    assert i in g.heights.Keys && Vouched(c, chain, g.tx, i, g.heights[i]);
    FrontEnd.OldestExists(g.heights);
  }

  lemma TxNotifyOk(c: Config, chain: seq<Block>, f: FrontEnd.State, n: Notification)
    requires Honest(c) && ReplicaOk(c, chain, f) && NoteOk(c, chain, n)
    ensures ReplicaOk(c, chain, FrontEnd.TxNotify(c.sentinels, f, n))
  {
    if FrontEnd.CheckAttestations(c.sentinels, n.tx) {
      GatherOk(c, chain, f, n);
      var g := FrontEnd.Gather(f, n);
      if |g.heights| == |g.tx.inputs| {
        CompleteOk(c, chain, n.tx.id, g);
      }
    }
  }

  // ---------------------------------------------------------------- acceptance

  /** The heart of the protocol. An aggregate that passes the window spends ids that are unspent in the
      chain and not consumed by any transaction already waiting for the next block. */
  lemma AcceptedIsUnspent(c: Config, a: Atomizer.State, chain: seq<Block>, g: FrontEnd.Aggregate)
    requires Tracks(a, chain) && AggregateOk(c, chain, g)
    requires Atomizer.InsertComplete(a, g.oldest, g.tx).1 == None
    ensures g.tx.InputSet() <= Replay(c.genesis, chain)
    ensures g.tx.InputSet() !! InputsOf(a.complete)
    ensures g.tx.InputSet() <= Uhs(c.genesis, History(a, chain))
  {
    DecidesByHistory(a, chain, g.oldest, g.tx);
    forall x | x in g.tx.InputSet()
      ensures x in Replay(c.genesis, chain) && x !in InputsOf(a.complete) && x in Uhs(c.genesis, History(a, chain))
    {
      assert LiveSince(c, chain, x, g.oldest);
      var h :| g.oldest <= h && Existed(c, chain, x, h);
      SplitSince(a, chain, g.oldest, h);
      FlattenCut(chain, h);
      Survives(c.genesis, Flatten(chain[..h]), Flatten(chain[h..]), x);
      Survives(c.genesis, Flatten(chain), a.complete, x);
    }
  }

  lemma SplitSince(a: Atomizer.State, chain: seq<Block>, oldest: nat, h: nat)
    requires oldest <= h <= |chain|
    ensures InputsOf(Flatten(chain[h..])) <= InputsOf(Since(a, chain, oldest))
    ensures InputsOf(a.complete) <= InputsOf(Since(a, chain, oldest))
  {
    var older, newer := chain[oldest..h], chain[h..];
    assert chain[oldest..] == older + newer;
    FlattenAppend(older, newer);
    InputsOfAppend(Flatten(older), Flatten(newer));
    InputsOfAppend(Flatten(chain[oldest..]), a.complete);
  }

  lemma FlattenCut(chain: seq<Block>, h: nat)
    requires h <= |chain|
    ensures Flatten(chain) == Flatten(chain[..h]) + Flatten(chain[h..])
  {
    var older, newer := chain[..h], chain[h..];
    assert chain == older + newer;
    FlattenAppend(older, newer);
  }

  lemma InsertOk(c: Config, a: Atomizer.State, chain: seq<Block>, g: FrontEnd.Aggregate)
    requires Honest(c) && HistoryOk(c, a, chain) && AggregateOk(c, chain, g)
    ensures HistoryOk(c, Atomizer.InsertComplete(a, g.oldest, g.tx).0, chain)
  {
    DecidesByHistory(a, chain, g.oldest, g.tx);
    if Atomizer.InsertComplete(a, g.oldest, g.tx).1 == None {
      AcceptedIsUnspent(c, a, chain, g);
      AcceptTracks(a, chain, g.tx);
      SoundSnoc(c.genesis, History(a, chain), g.tx);
    }
  }

  lemma {:induction false} InsertAllOk(c: Config, a: Atomizer.State, chain: seq<Block>, batch: seq<FrontEnd.Aggregate>)
    requires Honest(c) && HistoryOk(c, a, chain) && BatchOk(c, chain, batch)
    ensures HistoryOk(c, StateMachine.InsertAll(a, batch).0, chain)
  {
    if batch != [] {
      var n := |batch| - 1;
      assert batch[n] in batch;
      InsertAllOk(c, a, chain, batch[..n]);
      InsertOk(c, StateMachine.InsertAll(a, batch[..n]).0, chain, batch[n]);
    }
  }

  lemma CutOk(c: Config, a: Atomizer.State, chain: seq<Block>)
    requires HistoryOk(c, a, chain) && a.height + 1 < U64_RANGE
    ensures HistoryOk(c, Atomizer.Rotate(a), chain + [Atomizer.NextBlock(a)])
  {
    RotateTracks(a, chain);
  }

  // ---------------------------------------------------------------- blocks, cache and archive

  lemma CutBlocksOk(chain: seq<Block>, cache: map<nat, Block>, broadcast: set<Block>,
                    a: Archiver.State, requests: set<Archiver.Request>, blk: Block)
    requires BlocksOk(chain, cache, broadcast, a, requests) && blk.height == |chain| + 1
    ensures BlocksOk(chain + [blk], StateMachine.Cache(cache, blk), broadcast + {blk}, a, requests)
  {
    var chain' := chain + [blk];
    assert forall k | 0 <= k < |chain| :: chain'[k] == chain[k];
    assert Archiver.FromChain(a, chain');
  }

  lemma ServeOk(chain: seq<Block>, cache: map<nat, Block>, broadcast: set<Block>,
                a: Archiver.State, requests: set<Archiver.Request>, h: nat)
    requires BlocksOk(chain, cache, broadcast, a, requests) && h in cache
    ensures BlocksOk(chain, cache, broadcast + {cache[h]}, a, requests)
  {
  }

  /** Pruning is safe because no request in flight exceeds what the archiver has stored. */
  lemma PruneOk(chain: seq<Block>, cache: map<nat, Block>, broadcast: set<Block>,
                a: Archiver.State, requests: set<Archiver.Request>, h: nat)
    requires BlocksOk(chain, cache, broadcast, a, requests) && Archiver.Prune(h) in requests
    ensures BlocksOk(chain, StateMachine.Kept(cache, h), broadcast, a, requests)
  {
  }

  lemma ArchiverReceiveOk(chain: seq<Block>, a: Archiver.State, requests: set<Archiver.Request>, blk: Block)
    requires ArchiverOk(chain, a, requests) && Archiver.ChainHeights(chain)
    requires 1 <= blk.height <= |chain| && blk == chain[blk.height - 1]
    ensures var (a', reqs) := Archiver.DigestBlock(a, blk);
            ArchiverOk(chain, a', requests + Archiver.Requests(reqs)) && a.best <= a'.best
  {
    Archiver.DigestRequests(a, blk, requests);
    StoredOk(chain, a, blk);
  }

  lemma StoredOk(chain: seq<Block>, a: Archiver.State, blk: Block)
    requires a.Valid() && Archiver.FromChain(a, chain) && Archiver.AtRest(a) && Archiver.ChainHeights(chain)
    requires 1 <= blk.height <= |chain| && blk == chain[blk.height - 1] && forall h | h in a.deferred :: h > a.best
    ensures var a' := Archiver.DigestBlock(a, blk).0;
            && a'.Valid() && Archiver.FromChain(a', chain) && Archiver.AtRest(a')
            && forall h | h in a'.deferred :: h > a'.best
  {
    SeenOk(chain, a, blk, Seen(a), Archiver.DigestBlock(a, blk).0);
  }

  lemma SeenOk(chain: seq<Block>, a: Archiver.State, blk: Block, seen: set<nat>, a': Archiver.State)
    requires a.Valid() && Archiver.FromChain(a, chain) && Archiver.AtRest(a) && Archiver.ChainHeights(chain)
    requires 1 <= blk.height <= |chain| && blk == chain[blk.height - 1]
    requires Archiver.Accounts(a, seen) && a' == Archiver.DigestBlock(a, blk).0
    ensures Archiver.FromChain(a', chain) && Archiver.AtRest(a') && forall h | h in a'.deferred :: h > a'.best
  {
    Archiver.Arrival(a, blk.height, chain, seen);
    DeferredAbove(a', seen + {blk.height});
  }

  lemma DeferredAbove(a: Archiver.State, seen: set<nat>)
    requires Archiver.Accounts(a, seen)
    ensures forall h | h in a.deferred :: h > a.best
  {
  }

  /** Heights stored or deferred. */
  ghost function Seen(a: Archiver.State): (r: set<nat>)
    requires forall h | h in a.deferred :: h > a.best
    ensures Archiver.Accounts(a, r)
  {
    Atomizer.Range(a.best + 1) + a.deferred.Keys
  }

  lemma ReceiveBlocksOk(chain: seq<Block>, cache: map<nat, Block>, broadcast: set<Block>,
                        a: Archiver.State, requests: set<Archiver.Request>, blk: Block)
    requires BlocksOk(chain, cache, broadcast, a, requests) && blk in broadcast
    ensures var (a', reqs) := Archiver.DigestBlock(a, blk);
            BlocksOk(chain, cache, broadcast, a', requests + Archiver.Requests(reqs))
  {
    OnChain(chain, cache, broadcast, a, requests, blk);
    var (a', reqs) := Archiver.DigestBlock(a, blk);
    ArchiverReceiveOk(chain, a, requests, blk);
    NewArchiverOk(chain, cache, broadcast, a, requests, a', requests + Archiver.Requests(reqs));
  }

  lemma OnChain(chain: seq<Block>, cache: map<nat, Block>, broadcast: set<Block>,
                a: Archiver.State, requests: set<Archiver.Request>, blk: Block)
    requires BlocksOk(chain, cache, broadcast, a, requests) && blk in broadcast
    ensures a.Valid() && 1 <= blk.height <= |chain| && blk == chain[blk.height - 1]
  {
  }

  /** An archiver that has stored no less leaves what it lacks in the cache. */
  lemma NewArchiverOk(chain: seq<Block>, cache: map<nat, Block>, broadcast: set<Block>, a: Archiver.State,
                      requests: set<Archiver.Request>, a': Archiver.State, requests': set<Archiver.Request>)
    requires BlocksOk(chain, cache, broadcast, a, requests) && ArchiverOk(chain, a', requests') && a.best <= a'.best
    ensures BlocksOk(chain, cache, broadcast, a', requests')
  {
  }

  lemma RestartOk(chain: seq<Block>, cache: map<nat, Block>, broadcast: set<Block>,
                  a: Archiver.State, requests: set<Archiver.Request>)
    requires BlocksOk(chain, cache, broadcast, a, requests)
    ensures BlocksOk(chain, cache, broadcast, Archiver.Restart(a), requests)
  {
  }

  // ---------------------------------------------------------------- every step, every run

  lemma InitOk(c: Config)
    requires Honest(c)
    ensures Inv(c, Init(c))
  {
    var s := Init(c);
    InitialTracks(c.depth);
    assert History(s.machine.atomizer, s.chain) == [];
    assert s.chain[..0] == [];
    forall i | 0 <= i < |s.shards| ensures SliceAt(c, s.chain, i, s.shards[i]) {
      assert s.chain[..s.shards[i].height] == [];
    }
  }

  lemma ShardStepOk(c: Config, s: System, step: Step)
    requires Inv(c, s) && Enabled(c, s, step)
    requires step.Capture? || step.ShardReceive? || step.ShardFetch?
    ensures Inv(c, Next(c, s, step))
  {
    assert SliceAt(c, s.chain, step.shard, s.shards[step.shard]);
    match step
    case Capture(i) =>
    case ShardReceive(i, blk) =>
      DigestOk(c, s.chain, i, s.shards[i], blk);
    case ShardFetch(i, h) =>
      DigestOk(c, s.chain, i, s.shards[i], s.archiver.db[h]);
  }

  lemma NoteStepOk(c: Config, s: System, step: Step)
    requires Inv(c, s) && Enabled(c, s, step)
    requires step.Attest? || step.SendMint?
    ensures Inv(c, Next(c, s, step))
  {
    if step.Attest? {
      assert SliceAt(c, s.chain, (step.shard, step.snap).0, (step.shard, step.snap).1);
      if DigestTransaction(c.ranges[step.shard], step.snap, step.tx).Notify? {
        AttestOk(c, s.chain, step.shard, step.snap, step.tx);
      }
    } else {
      assert NoteOk(c, s.chain, Notification(step.tx, {}, step.height));
    }
  }

  lemma ReplicaStepOk(c: Config, s: System, step: Step)
    requires Honest(c) && Inv(c, s) && Enabled(c, s, step)
    requires step.Gather? || step.Propose? || step.LoseReplica?
    ensures Inv(c, Next(c, s, step))
  {
    var r := step.replica;
    assert ReplicaOk(c, s.chain, s.replicas[r]);
    match step
    case Gather(_, note) =>
      assert NoteOk(c, s.chain, note);
      TxNotifyOk(c, s.chain, s.replicas[r], note);
    case Propose(_) =>
      assert BatchOk(c, s.chain, s.replicas[r].complete) && BatchOk(c, s.chain, []);
      assert ReplicaOk(c, s.chain, s.replicas[r].(complete := []));
    case LoseReplica(_) =>
      assert ReplicaOk(c, s.chain, FrontEnd.Initial);
  }

  lemma ServeStepOk(c: Config, s: System, h: nat)
    requires Inv(c, s) && Enabled(c, s, ServeBlock(h))
    ensures Inv(c, Next(c, s, ServeBlock(h)))
  {
    if h in s.machine.blocks {
      ServeOk(s.chain, s.machine.blocks, s.broadcast, s.archiver, s.requests, h);
    }
  }

  lemma BlockStepOk(c: Config, s: System, step: Step)
    requires Inv(c, s) && Enabled(c, s, step)
    requires step.ServeBlock? || step.PruneCache? || step.ArchiverReceive? || step.ArchiverRestart?
    ensures Inv(c, Next(c, s, step))
  {
    match step
    case ServeBlock(h) => ServeStepOk(c, s, h);
    case PruneCache(h) =>
      PruneOk(s.chain, s.machine.blocks, s.broadcast, s.archiver, s.requests, h);
    case ArchiverReceive(blk) =>
      ReceiveBlocksOk(s.chain, s.machine.blocks, s.broadcast, s.archiver, s.requests, blk);
    case ArchiverRestart =>
      RestartOk(s.chain, s.machine.blocks, s.broadcast, s.archiver, s.requests);
  }

  lemma CutMessagesOk(c: Config, s: System, blk: Block)
    requires Inv(c, s)
    ensures ShardsOk(c, s.chain + [blk], s.shards, s.captured)
    ensures NotesOk(c, s.chain + [blk], s.notifications)
    ensures ReplicasOk(c, s.chain + [blk], s.replicas)
    ensures BatchesOk(c, s.chain + [blk], s.batches)
  {
    ShardsGrow(c, s.chain, blk, s.shards, s.captured);
    NotesGrow(c, s.chain, blk, s.notifications);
    ReplicasGrow(c, s.chain, blk, s.replicas);
    BatchesGrow(c, s.chain, blk, s.batches);
  }

  lemma CutStepOk(c: Config, s: System)
    requires Inv(c, s) && Enabled(c, s, CutBlock)
    ensures Inv(c, Next(c, s, CutBlock))
  {
    var blk := Atomizer.NextBlock(s.machine.atomizer);
    CutOk(c, s.machine.atomizer, s.chain);
    CutBlocksOk(s.chain, s.machine.blocks, s.broadcast, s.archiver, s.requests, blk);
    CutMessagesOk(c, s, blk);
    CutResult(c, s);
  }

  /** What cutting a block changes. */
  lemma CutResult(c: Config, s: System)
    requires Enabled(c, s, CutBlock)
    ensures var t, blk := Next(c, s, CutBlock), Atomizer.NextBlock(s.machine.atomizer);
            && t.machine.atomizer == Atomizer.Rotate(s.machine.atomizer)
            && t.machine.blocks == StateMachine.Cache(s.machine.blocks, blk)
            && t.chain == s.chain + [blk] && t.broadcast == s.broadcast + {blk}
            && t.shards == s.shards && t.captured == s.captured && t.notifications == s.notifications
            && t.replicas == s.replicas && t.batches == s.batches
            && t.archiver == s.archiver && t.requests == s.requests
  {
  }

  lemma StepOk(c: Config, s: System, step: Step)
    requires Honest(c) && Inv(c, s) && Enabled(c, s, step)
    ensures Inv(c, Next(c, s, step))
  {
    match step
    case CommitBatch(batch) =>
      InsertAllOk(c, s.machine.atomizer, s.chain, batch);
    case CutBlock =>
      CutStepOk(c, s);
    case Capture(_) => ShardStepOk(c, s, step);
    case ShardReceive(_, _) => ShardStepOk(c, s, step);
    case ShardFetch(_, _) => ShardStepOk(c, s, step);
    case Attest(_, _, _) => NoteStepOk(c, s, step);
    case SendMint(_, _) => NoteStepOk(c, s, step);
    case Gather(_, _) => ReplicaStepOk(c, s, step);
    case Propose(_) => ReplicaStepOk(c, s, step);
    case LoseReplica(_) => ReplicaStepOk(c, s, step);
    case _ => BlockStepOk(c, s, step);
  }

  lemma {:induction false} RunOk(c: Config, steps: seq<Step>)
    requires Honest(c)
    ensures Inv(c, Run(c, steps))
  {
    if steps == [] {
      InitOk(c);
    } else {
      var n := |steps| - 1;
      RunOk(c, steps[..n]);
      if Enabled(c, Run(c, steps[..n]), steps[n]) {
        StepOk(c, Run(c, steps[..n]), steps[n]);
      }
    }
  }
}

/** The guarantees of the settlement pipeline, for every run. */
module Theorems {
  import opened Common
  import opened Ledger
  import opened Shard
  import opened Settlement
  import opened Window
  import opened Safety
  import FrontEnd
  import Atomizer
  import Archiver
  import BlockCache

  ghost function Accepted(s: System): seq<CompactTx> {
    History(s.machine.atomizer, s.chain)
  }

  lemma AcceptedIsGenuine(c: Config, s: System)
    requires Honest(c) && Inv(c, s)
    ensures Sound(c.genesis, Accepted(s)) && Genuine(c.genesis, Accepted(s))
  {
    var hist := Accepted(s);
    forall t | t in hist ensures Distinct(t.outputs) && t.OutputSet() !! c.genesis {
      assert FrontEnd.CheckAttestations(c.sentinels, t);
    }
    forall t, u | t in hist && u in hist ensures SameOrigin(t, u) {
      assert FrontEnd.CheckAttestations(c.sentinels, t) && FrontEnd.CheckAttestations(c.sentinels, u);
    }
  }

  /** Whatever the network, the shards and the replicas do: every accepted transaction spends ids that
      were unspent when it was accepted, and if no mint is accepted twice then no id is ever created
      twice or consumed twice. */
  lemma NoDoubleSpendInAnyRun(c: Config, steps: seq<Step>)
    requires Honest(c)
    ensures var hist := Accepted(Run(c, steps));
            && Sound(c.genesis, hist)
            && (MintsDistinct(hist) ==> CreatedOnce(hist) && ConsumedOnce(hist))
            && ((forall t | t in hist && t.Mint() :: t.outputs != []) ==>
                (CreatedOnce(hist) <==> MintsDistinct(hist)))
  {
    RunOk(c, steps);
    AcceptedIsGenuine(c, Run(c, steps));
    var hist := Accepted(Run(c, steps));
    if MintsDistinct(hist) {
      NoDoubleSpend(c.genesis, hist);
    }
    if forall t | t in hist && t.Mint() :: t.outputs != [] {
      FreshIffMintsDistinct(c.genesis, hist);
    }
  }

  /** In every run no replica has recorded a height of 0, so the order in which it meets the recorded heights
      does not matter. */
  lemma RecordedHeights(c: Config, steps: seq<Step>, r: nat, id: Hash, i: nat)
    requires Honest(c)
    ensures var s := Run(c, steps);
            r < |s.replicas| && id in s.replicas[r].pending && i in s.replicas[r].pending[id].heights ==>
            1 <= s.replicas[r].pending[id].heights[i] <= |s.chain|
  {
    RunOk(c, steps);
    var s := Run(c, steps);
    if r < |s.replicas| && id in s.replicas[r].pending && i in s.replicas[r].pending[id].heights {
      assert ReplicaOk(c, s.chain, s.replicas[r]);
      assert GatheringOk(c, s.chain, id, s.replicas[r].pending[id]);
    }
  }

  /** Nor does a notification on the network carry one, so recording it keeps it that way. */
  lemma NotifiedHeights(c: Config, steps: seq<Step>, note: Notification)
    requires Honest(c) && note in Run(c, steps).notifications && note.attested != {}
    ensures 1 <= note.height <= |Run(c, steps).chain|
  {
    RunOk(c, steps);
    assert NoteOk(c, Run(c, steps).chain, note);
    var i :| i in note.attested;
  }

  /** An aggregate that some replica has completed or proposed. */
  ghost predicate InFlight(s: System, g: FrontEnd.Aggregate) {
    || (exists batch :: batch in s.batches && g in batch)
    || (exists r :: 0 <= r < |s.replicas| && g in s.replicas[r].complete)
  }

  /** Committing this aggregate now would put its transaction in the next block. */
  ghost predicate Accepts(s: System, g: FrontEnd.Aggregate) {
    s.machine.Valid() && Atomizer.InsertComplete(s.machine.atomizer, g.oldest, g.tx).1 == None
  }

  lemma InFlightOk(c: Config, s: System, g: FrontEnd.Aggregate)
    requires Inv(c, s) && InFlight(s, g)
    ensures AggregateOk(c, s.chain, g)
  {
    if batch :| batch in s.batches && g in batch {
      assert BatchOk(c, s.chain, batch);
    } else {
      var r :| 0 <= r < |s.replicas| && g in s.replicas[r].complete;
      assert ReplicaOk(c, s.chain, s.replicas[r]);
    }
  }

  lemma SinceIsRecent(a: Atomizer.State, chain: seq<Block>, h: nat)
    requires h <= |chain|
    ensures InputsOf(Since(a, chain, h)) <= InputsOf(History(a, chain))
  {
    FlattenCut(chain, h);
    InputsOfAppend(Flatten(chain[..h]), Flatten(chain[h..]));
    InputsOfAppend(Flatten(chain[h..]), a.complete);
    InputsOfAppend(Flatten(chain), a.complete);
  }

  /** A window of the last few blocks and attestations that may be stale decide exactly as a look-up in
      the complete unspent set would, for every transaction recent enough to be considered. */
  lemma WindowDecidesLikeFullUhs(c: Config, steps: seq<Step>, g: FrontEnd.Aggregate)
    requires Honest(c)
    requires InFlight(Run(c, steps), g) && !g.tx.Mint()
    requires MintsDistinct(Accepted(Run(c, steps)))
    ensures var s := Run(c, steps);
            g.oldest <= |s.chain| &&
            (Accepts(s, g) <==>
             |s.chain| - g.oldest <= c.depth && g.tx.InputSet() <= Uhs(c.genesis, Accepted(s)))
  {
    var s := Run(c, steps);
    var a := s.machine.atomizer;
    RunOk(c, steps);
    InFlightOk(c, s, g);
    DecidesByHistory(a, s.chain, g.oldest, g.tx);
    if Accepts(s, g) {
      AcceptedIsUnspent(c, a, s.chain, g);
    } else if g.tx.InputSet() <= Uhs(c.genesis, Accepted(s)) {
      AcceptedIsGenuine(c, s);
      NoDoubleSpend(c.genesis, Accepted(s));
      UhsIsCreatedMinusSpent(c.genesis, Accepted(s));
      SinceIsRecent(a, s.chain, g.oldest);
    }
  }

  /** Acceptance in any run: the inputs are in the replayed chain and free of the block in assembly. */
  lemma AcceptanceInAnyRun(c: Config, steps: seq<Step>, g: FrontEnd.Aggregate)
    requires Honest(c) && InFlight(Run(c, steps), g)
    requires Accepts(Run(c, steps), g)
    ensures var s := Run(c, steps);
            && g.tx.InputSet() <= Replay(c.genesis, s.chain)
            && g.tx.InputSet() !! InputsOf(s.machine.atomizer.complete)
  {
    RunOk(c, steps);
    InFlightOk(c, Run(c, steps), g);
    AcceptedIsUnspent(c, Run(c, steps).machine.atomizer, Run(c, steps).chain, g);
  }

  /** No block is lost to pruning: each block cut so far is archived or still cached, and what the
      archiver is waiting for has been asked for and can still be served. */
  lemma NoBlockLost(c: Config, steps: seq<Step>)
    requires Honest(c)
    ensures var s := Run(c, steps);
            && (forall h | 1 <= h <= |s.chain| ::
                  || (h in s.archiver.db && s.archiver.db[h] == s.chain[h - 1])
                  || (h in s.machine.blocks && s.machine.blocks[h] == s.chain[h - 1]))
            && (forall h | h in s.archiver.deferred ::
                  && h > s.archiver.best + 1
                  && h - 1 in s.machine.blocks
                  && (h - 1 in s.archiver.deferred || Archiver.GetBlock(h - 1) in s.requests))
  {
    RunOk(c, steps);
    var s := Run(c, steps);
    forall h | 1 <= h <= |s.chain|
      ensures || (h in s.archiver.db && s.archiver.db[h] == s.chain[h - 1])
              || (h in s.machine.blocks && s.machine.blocks[h] == s.chain[h - 1])
    {
      BlockKept(c, s, h);
    }
    forall h | h in s.archiver.deferred
      ensures h > s.archiver.best + 1 && h - 1 in s.machine.blocks
      ensures h - 1 in s.archiver.deferred || Archiver.GetBlock(h - 1) in s.requests
    {
      DeferredServed(c, s, h);
    }
  }

  lemma BlockKept(c: Config, s: System, h: nat)
    requires Inv(c, s) && 1 <= h <= |s.chain|
    ensures || (h in s.archiver.db && s.archiver.db[h] == s.chain[h - 1])
            || (h in s.machine.blocks && s.machine.blocks[h] == s.chain[h - 1])
  {
    if h >= s.archiver.best { assert h in s.machine.blocks; }
  }

  lemma DeferredServed(c: Config, s: System, h: nat)
    requires Inv(c, s) && h in s.archiver.deferred
    ensures h > s.archiver.best + 1 && h - 1 in s.machine.blocks
    ensures h - 1 in s.archiver.deferred || Archiver.GetBlock(h - 1) in s.requests
  {
    assert Archiver.Asked(s.archiver, s.requests, h);
  }

  /** Each shard holds exactly its slice of the chain it has digested; shards that have reached the same
      height and partition the id space hold the whole UHS of that height between them. */
  lemma ShardsRefineUhs(c: Config, steps: seq<Step>, h: nat)
    requires Honest(c) && Partition(c.ranges)
    requires forall i | 0 <= i < |Run(c, steps).shards| :: Run(c, steps).shards[i].height == h
    ensures var s := Run(c, steps);
            && |s.shards| == |c.ranges| > 0 && h <= |s.chain|
            && Replay(c.genesis, s.chain[..h]) ==
               (set i, x | 0 <= i < |s.shards| && x in s.shards[i].uhs :: x)
            && (forall i, j | 0 <= i < j < |s.shards| :: s.shards[i].uhs !! s.shards[j].uhs)
  {
    RunOk(c, steps);
    var s := Run(c, steps);
    assert Covered(c.ranges, 0);
    assert SliceAt(c, s.chain, 0, s.shards[0]);
    var u := Replay(c.genesis, s.chain[..h]);
    ShardsPartitionUhs(c.ranges, u);
    forall i | 0 <= i < |s.shards| ensures s.shards[i].uhs == c.ranges[i].Restrict(u) {
      assert SliceAt(c, s.chain, i, s.shards[i]);
    }
  }

  /** What the last transaction creates is spent by none, itself included. */
  lemma LastOutputsUnspent(genesis: set<Hash>, hist: seq<CompactTx>)
    requires hist != [] && Sound(genesis, hist) && Fresh(genesis, hist)
    ensures hist[|hist| - 1].OutputSet() !! InputsOf(hist)
  {
    var n := |hist| - 1;
    UhsIsCreatedMinusSpent(genesis, hist[..n]);
    assert hist == hist[..n] + [hist[n]];
    OutputsOfSnoc(hist[..n], hist[n]);
  }

  /** An id is spent only by a transaction that comes after the one creating it. */
  lemma {:induction false} SpendsEarlier(genesis: set<Hash>, hist: seq<CompactTx>, i: nat, j: nat, x: Hash)
    requires Sound(genesis, hist) && Fresh(genesis, hist)
    requires i < |hist| && j < |hist| && x in hist[i].outputs && x in hist[j].inputs
    ensures i < j
  {
    var n := |hist| - 1;
    if i < n && j < n {
      SpendsEarlier(genesis, hist[..n], i, j, x);
    } else {
      assert x in InputsOf(hist);
      LastOutputsUnspent(genesis, hist);
    }
  }

  /** The blocks of every run form a stream such as the watchtower's index asks for: each id is created
      once and spent once, by a later transaction. */
  lemma BlocksAreStream(c: Config, steps: seq<Step>)
    requires Honest(c) && MintsDistinct(Accepted(Run(c, steps)))
    ensures BlockCache.Stream(BlockCache.Entries(Run(c, steps).chain))
  {
    var s := Run(c, steps);
    RunOk(c, steps);
    AcceptedIsGenuine(c, s);
    NoDoubleSpend(c.genesis, Accepted(s));
    HistoryIsStream(c.genesis, Accepted(s), s.chain);
  }

  lemma HistoryIsStream(genesis: set<Hash>, hist: seq<CompactTx>, chain: seq<Block>)
    requires Sound(genesis, hist) && Fresh(genesis, hist) && CreatedOnce(hist) && ConsumedOnce(hist)
    requires |Flatten(chain)| <= |hist| && Flatten(chain) == hist[..|Flatten(chain)|]
    ensures BlockCache.Stream(BlockCache.Entries(chain))
  {
    var es := BlockCache.Entries(chain);
    BlockCache.EntriesAreHistory(chain);
    forall i: nat, j: nat, x | BlockCache.Creates(es, i, x) && BlockCache.Creates(es, j, x) ensures i == j {
      assert x in hist[i].OutputSet() && x in hist[j].OutputSet();
    }
    forall i: nat, j: nat, x | BlockCache.Consumes(es, i, x) && BlockCache.Consumes(es, j, x) ensures i == j {
      assert x in hist[i].InputSet() && x in hist[j].InputSet();
    }
    forall i: nat, j: nat, x | BlockCache.Creates(es, i, x) && BlockCache.Consumes(es, j, x) ensures i < j {
      SpendsEarlier(genesis, hist, i, j, x);
    }
  }
}

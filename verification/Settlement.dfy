/** The whole pipeline as a transition system. Messages live in sets that only grow, so they can be
    lost (never used), repeated and reordered; shards lag; one log of commands drives the atomizer. */
module Settlement {
  import opened Common
  import opened Ledger
  import opened Shard
  import FrontEnd
  import Atomizer
  import Archiver
  import StateMachine

  datatype Config = Config(
    sentinels: FrontEnd.Sentinels,
    genesis: set<Hash>,
    ranges: seq<Range>,
    replicas: nat,
    depth: nat
  )

  datatype System = System(
    machine: StateMachine.State,
    /** Every block ever cut; kept for the statements, read by no step. */
    chain: seq<Block>,
    replicas: seq<FrontEnd.State>,
    shards: seq<Snapshot>,
    /** Snapshots picked up by request handlers that have not answered yet. */
    captured: set<(nat, Snapshot)>,
    archiver: Archiver.State,
    notifications: set<Notification>,
    batches: set<seq<FrontEnd.Aggregate>>,
    broadcast: set<Block>,
    requests: set<Archiver.Request>
  )

  datatype Step =
    | Capture(shard: nat)
    | Attest(shard: nat, snap: Snapshot, tx: CompactTx)
    | SendMint(tx: CompactTx, height: nat)
    | ShardReceive(shard: nat, blk: Block)
    | ShardFetch(shard: nat, height: nat)
    | Gather(replica: nat, note: Notification)
    | Propose(replica: nat)
    | LoseReplica(replica: nat)
    | CommitBatch(batch: seq<FrontEnd.Aggregate>)
    | CutBlock
    | ServeBlock(height: nat)
    | PruneCache(height: nat)
    | ArchiverReceive(blk: Block)
    | ArchiverRestart

  function Init(c: Config): System {
    System(StateMachine.Initial(c.depth), [],
           seq(c.replicas, _ => FrontEnd.Initial),
           seq(|c.ranges|, i requires 0 <= i < |c.ranges| => Snapshot(0, c.ranges[i].Restrict(c.genesis))),
           {}, Archiver.Initial, {}, {}, {}, {})
  }

  ghost predicate Enabled(c: Config, s: System, step: Step) {
    && |s.shards| == |c.ranges|
    && match step
       case Capture(i) => i < |s.shards|
       case Attest(i, snap, tx) =>
         i < |s.shards| && (i, snap) in s.captured && FrontEnd.CheckAttestations(c.sentinels, tx)
       case SendMint(tx, _) => tx.Mint()
       case ShardReceive(i, blk) => i < |s.shards| && blk in s.broadcast
       case ShardFetch(i, h) => i < |s.shards| && h in s.archiver.db
       case Gather(r, note) => r < |s.replicas| && note in s.notifications
       case Propose(r) => r < |s.replicas|
       case LoseReplica(r) => r < |s.replicas|
       case CommitBatch(batch) =>
         batch in s.batches && StateMachine.Committable(s.machine, StateMachine.AggregateTxs(batch))
       case CutBlock => StateMachine.Committable(s.machine, StateMachine.MakeBlock)
       case ServeBlock(h) => Archiver.GetBlock(h) in s.requests && s.machine.Valid()
       case PruneCache(h) => Archiver.Prune(h) in s.requests && s.machine.Valid()
       case ArchiverReceive(blk) => blk in s.broadcast && s.archiver.Valid()
       case ArchiverRestart => true
  }

  /** A shard's answer reaches the network only when it is a notification. */
  function Publish(notes: set<Notification>, reply: Reply): set<Notification> {
    if reply.Notify? then notes + {reply.msg} else notes
  }

  function Served(broadcast: set<Block>, resp: StateMachine.Response): set<Block> {
    match resp
    case Made(blk, _) => broadcast + {blk}
    case Found(blk) => broadcast + {blk}
    case _ => broadcast
  }

  ghost function Next(c: Config, s: System, step: Step): System
    requires Enabled(c, s, step)
  {
    match step
    case Capture(i) => s.(captured := s.captured + {(i, s.shards[i])})
    case Attest(i, snap, tx) =>
      s.(notifications := Publish(s.notifications, DigestTransaction(c.ranges[i], snap, tx)))
    case SendMint(tx, h) => s.(notifications := s.notifications + {Notification(tx, {}, h)})
    case ShardReceive(i, blk) => s.(shards := s.shards[i := Digest(c.ranges[i], s.shards[i], blk)])
    case ShardFetch(i, h) => s.(shards := s.shards[i := Digest(c.ranges[i], s.shards[i], s.archiver.db[h])])
    case Gather(r, note) =>
      s.(replicas := s.replicas[r := FrontEnd.TxNotify(c.sentinels, s.replicas[r], note)])
    case Propose(r) =>
      s.(replicas := s.replicas[r := s.replicas[r].(complete := [])],
         batches := s.batches + {s.replicas[r].complete})
    case LoseReplica(r) => s.(replicas := s.replicas[r := FrontEnd.Initial])
    case CommitBatch(batch) =>
      s.(machine := StateMachine.Commit(s.machine, StateMachine.AggregateTxs(batch)).0)
    case CutBlock =>
      var (m, resp) := StateMachine.Commit(s.machine, StateMachine.MakeBlock);
      s.(machine := m,
         chain := s.chain + [Atomizer.NextBlock(s.machine.atomizer)],
         broadcast := Served(s.broadcast, resp))
    case ServeBlock(h) =>
      var (m, resp) := StateMachine.Commit(s.machine, StateMachine.GetBlock(h));
      s.(machine := m, broadcast := Served(s.broadcast, resp))
    case PruneCache(h) =>
      s.(machine := StateMachine.Commit(s.machine, StateMachine.Prune(h)).0)
    case ArchiverReceive(blk) =>
      var (a, reqs) := Archiver.DigestBlock(s.archiver, blk);
      s.(archiver := a, requests := s.requests + Archiver.Requests(reqs))
    case ArchiverRestart => s.(archiver := Archiver.Restart(s.archiver))
  }

  /** The state after any list of steps; a step that is not enabled does nothing. */
  ghost function Run(c: Config, steps: seq<Step>): System {
    if steps == [] then Init(c)
    else
      var s := Run(c, steps[..|steps| - 1]);
      var step := steps[|steps| - 1];
      if Enabled(c, s, step) then Next(c, s, step) else s
  }

  // ---------------------------------------------------------------- runs in pieces

  ghost function Do(c: Config, s: System, step: Step): System {
    if Enabled(c, s, step) then Next(c, s, step) else s
  }

  ghost function After(c: Config, s: System, steps: seq<Step>): System
    decreases |steps|
  {
    if steps == [] then s else After(c, Do(c, s, steps[0]), steps[1..])
  }

  lemma {:induction false} RunAppend(c: Config, a: seq<Step>, b: seq<Step>)
    ensures Run(c, a + b) == After(c, Run(c, a), b)
    decreases |b|
  {
    if b == [] {
      assert a + b == a;
    } else {
      assert a + b == (a + [b[0]]) + b[1..];
      assert (a + [b[0]])[..|a|] == a;
      RunAppend(c, a + [b[0]], b[1..]);
    }
  }
}

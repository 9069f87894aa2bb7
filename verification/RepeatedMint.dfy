/** What happens when one mint is let in twice: a run of the pipeline that spends an id twice. */
module RepeatedMint {
  import opened Common
  import opened Ledger
  import opened Shard
  import opened Settlement
  import opened Window
  import opened Safety
  import opened Theorems
  import FrontEnd
  import Atomizer
  import StateMachine

  lemma Three(c: Config, s: System, a: Step, b: Step, d: Step)
    ensures After(c, s, [a, b, d]) == Do(c, Do(c, Do(c, s, a), b), d)
  {
    assert [a, b, d][1..] == [b, d] && [b, d][1..] == [d] && [d][1..] == [];
    var t := Do(c, Do(c, s, a), b);
    assert After(c, t, [d]) == After(c, Do(c, t, d), []);
    assert After(c, Do(c, s, a), [b, d]) == After(c, t, [d]);
  }

  lemma Four(c: Config, s: System, a: Step, b: Step, d: Step, e: Step)
    ensures After(c, s, [a, b, d, e]) == Do(c, Do(c, Do(c, Do(c, s, a), b), d), e)
  {
    assert [a, b, d, e][1..] == [b, d, e];
    Three(c, Do(c, s, a), b, d, e);
  }

  // ---------------------------------------------------------------- settling one transaction

  /** Nothing is under way: the first replica is idle and no transaction waits for a block. */
  ghost predicate Quiet(c: Config, s: System) {
    && c.ranges == [Range(0, 255)] && |s.shards| == 1 && s.replicas != [] && s.replicas[0] == FrontEnd.Initial
    && s.machine.Valid() && s.machine.atomizer.complete == []
  }

  /** `note` by itself completes its transaction, with `oldest` as the oldest height. */
  ghost predicate Completes(c: Config, note: Notification, oldest: nat) {
    var heights := FrontEnd.Attest(map[], note.attested, note.height);
    && FrontEnd.CheckAttestations(c.sentinels, note.tx)
    && |heights| == |note.tx.inputs| && FrontEnd.Oldest(heights) == oldest
  }

  ghost function SettleSteps(note: Notification, oldest: nat): seq<Step> {
    [Gather(0, note), Propose(0), CommitBatch([FrontEnd.Aggregate(note.tx, oldest)]), CutBlock]
  }

  /** The system once the transaction of `note` has been put into a block of its own. */
  ghost predicate Settled(s: System, note: Notification, t: System)
    requires s.machine.Valid()
  {
    var blk := Block(s.machine.atomizer.height + 1, [note.tx]);
    && t.machine.atomizer == Atomizer.Rotate(Atomizer.Accept(s.machine.atomizer, note.tx))
    && t.chain == s.chain + [blk] && blk in t.broadcast && s.broadcast <= t.broadcast
    && t.notifications == s.notifications && t.shards == s.shards
  }

  lemma NotifyAlone(c: Config, note: Notification, oldest: nat)
    requires Completes(c, note, oldest)
    ensures FrontEnd.TxNotify(c.sentinels, FrontEnd.Initial, note) ==
            FrontEnd.State(map[], [FrontEnd.Aggregate(note.tx, oldest)])
  {
    assert FrontEnd.Initial.pending - {note.tx.id} == map[];
  }

  lemma GatherStep(c: Config, s: System, note: Notification, f: FrontEnd.State)
    requires Quiet(c, s) && note in s.notifications && f == FrontEnd.TxNotify(c.sentinels, s.replicas[0], note)
    ensures Do(c, s, Gather(0, note)) == s.(replicas := s.replicas[0 := f])
  {
  }

  lemma ProposeStep(c: Config, s: System, before: seq<FrontEnd.State>, batch: seq<FrontEnd.Aggregate>)
    requires |s.shards| == |c.ranges| && before != [] && before[0] == FrontEnd.Initial
    requires s.replicas == before[0 := FrontEnd.State(map[], batch)]
    ensures Do(c, s, Propose(0)) == s.(replicas := before, batches := s.batches + {batch})
  {
    assert s.replicas[0 := FrontEnd.Initial] == before;
  }

  lemma CommitOne(a: Atomizer.State, agg: FrontEnd.Aggregate)
    requires a.Valid() && Atomizer.InsertComplete(a, agg.oldest, agg.tx) == (Atomizer.Accept(a, agg.tx), None)
    ensures StateMachine.InsertAll(a, [agg]).0 == Atomizer.Accept(a, agg.tx)
  {
    assert [agg][..0] == [];
    assert StateMachine.InsertAll(a, []) == (a, []);
  }

  lemma CommitStep(c: Config, s: System, agg: FrontEnd.Aggregate)
    requires |s.shards| == |c.ranges| && s.machine.Valid() && [agg] in s.batches
    requires var a := s.machine.atomizer;
      Atomizer.InsertComplete(a, agg.oldest, agg.tx) == (Atomizer.Accept(a, agg.tx), None)
    ensures var a := Atomizer.Accept(s.machine.atomizer, agg.tx);
            Do(c, s, CommitBatch([agg])) == s.(machine := StateMachine.State(s.machine.index + 1, a, s.machine.blocks))
  {
    CommitOne(s.machine.atomizer, agg);
  }

  lemma CutStep(c: Config, s: System)
    requires |s.shards| == |c.ranges| && s.machine.Valid() && s.machine.atomizer.height + 1 < U64_RANGE
    ensures var t := Do(c, s, CutBlock);
            var blk := Atomizer.NextBlock(s.machine.atomizer);
            && t.machine.atomizer == Atomizer.Rotate(s.machine.atomizer) && t.machine.Valid()
            && t.chain == s.chain + [blk] && t.broadcast == s.broadcast + {blk}
            && t.notifications == s.notifications && t.shards == s.shards && t.replicas == s.replicas
  {
  }

  lemma SettleOne(c: Config, s: System, note: Notification, oldest: nat)
    requires Quiet(c, s) && note in s.notifications && Completes(c, note, oldest)
    requires s.machine.atomizer.height + 1 < U64_RANGE
    requires var a := s.machine.atomizer;
      Atomizer.InsertComplete(a, oldest, note.tx) == (Atomizer.Accept(a, note.tx), None)
    ensures var t := After(c, s, SettleSteps(note, oldest)); Quiet(c, t) && Settled(s, note, t)
  {
    var agg := FrontEnd.Aggregate(note.tx, oldest);
    var f := FrontEnd.State(map[], [agg]);
    Four(c, s, Gather(0, note), Propose(0), CommitBatch([agg]), CutBlock);
    NotifyAlone(c, note, oldest);
    GatherStep(c, s, note, f);
    var s1 := s.(replicas := s.replicas[0 := f]);
    ProposeStep(c, s1, s.replicas, [agg]);
    var s2 := s1.(replicas := s.replicas, batches := s.batches + {[agg]});
    CommitStep(c, s2, agg);
    var s3 := Do(c, s2, CommitBatch([agg]));
    CutStep(c, s3);
    SettledNow(c, s, note, s3, Do(c, s3, CutBlock));
  }

  lemma SettledNow(c: Config, s: System, note: Notification, s3: System, t: System)
    requires Quiet(c, s) && s3.machine.Valid()
    requires s3.machine.atomizer == Atomizer.Accept(s.machine.atomizer, note.tx)
    requires s3.chain == s.chain && s3.broadcast == s.broadcast
    requires t.shards == s.shards && t.replicas == s.replicas && t.notifications == s.notifications
    requires t.machine.atomizer == Atomizer.Rotate(s3.machine.atomizer) && t.machine.Valid()
    requires var blk := Atomizer.NextBlock(s3.machine.atomizer);
      t.chain == s3.chain + [blk] && t.broadcast == s3.broadcast + {blk}
    ensures Quiet(c, t) && Settled(s, note, t)
  {
    assert [] + [note.tx] == [note.tx];
  }

  // ---------------------------------------------------------------- a mint and a spend

  /** A mint of `x`, and a transaction that spends it. */
  ghost predicate MintAndSpend(c: Config, mint: CompactTx, spend: CompactTx, x: Hash) {
    && mint.inputs == [] && mint.outputs == [x] && spend.inputs == [x]
    && FrontEnd.CheckAttestations(c.sentinels, mint) && FrontEnd.CheckAttestations(c.sentinels, spend)
  }

  lemma MintCompletes(c: Config, mint: CompactTx)
    requires mint.Mint() && FrontEnd.CheckAttestations(c.sentinels, mint)
    ensures Completes(c, Notification(mint, {}, 0), 0)
  {
    assert FrontEnd.Attest(map[], {}, 0) == map[];
  }

  lemma SpendCompletes(c: Config, spend: CompactTx, h: nat)
    requires |spend.inputs| == 1 && FrontEnd.CheckAttestations(c.sentinels, spend)
    ensures Completes(c, Notification(spend, {0}, h), h)
  {
    var heights := FrontEnd.Attest(map[], {0}, h);
    assert heights == map[0 := h];
    assert heights.Values == {h};
    FrontEnd.OldestExists(heights);
  }

  /** A mint is let in whatever is in the window. */
  lemma MintEnters(a: Atomizer.State, mint: CompactTx)
    requires a.Valid() && mint.Mint()
    ensures Atomizer.InsertComplete(a, 0, mint) == (Atomizer.Accept(a, mint), None)
  {
    assert Atomizer.Clashes(a.spent, mint.inputs, Sub64(a.height, 0)) == {};
  }

  /** An attestation at the current height is checked only against the block being assembled. */
  lemma FreshEnters(a: Atomizer.State, tx: CompactTx)
    requires a.Valid() && a.spent[0] == {}
    ensures Atomizer.InsertComplete(a, a.height, tx) == (Atomizer.Accept(a, tx), None)
  {
    assert Atomizer.Clashes(a.spent, tx.inputs, 0) == {};
  }

  lemma MintRound(c: Config, s: System, mint: CompactTx)
    requires Quiet(c, s) && mint.Mint() && FrontEnd.CheckAttestations(c.sentinels, mint)
    requires Notification(mint, {}, 0) in s.notifications && s.machine.atomizer.height + 1 < U64_RANGE
    ensures var note := Notification(mint, {}, 0);
            var t := After(c, s, SettleSteps(note, 0)); Quiet(c, t) && Settled(s, note, t)
  {
    MintCompletes(c, mint);
    MintEnters(s.machine.atomizer, mint);
    SettleOne(c, s, Notification(mint, {}, 0), 0);
  }

  // ---------------------------------------------------------------- the shard

  lemma AllIds(u: set<Hash>)
    ensures Range(0, 255).Restrict(u) == u
  {
  }

  /** The shard catches up by one block. */
  lemma ReceiveOne(c: Config, s: System, blk: Block)
    requires Quiet(c, s) && blk in s.broadcast && blk.height == s.shards[0].height + 1
    ensures Do(c, s, ShardReceive(0, blk)) == s.(shards := [Snapshot(blk.height, Uhs(s.shards[0].uhs, blk.txs))])
  {
    AllIds(Uhs(s.shards[0].uhs, blk.txs));
    var snap := Snapshot(blk.height, Uhs(s.shards[0].uhs, blk.txs));
    assert s.shards[0 := snap] == [snap];
  }

  /** The shard attests the input from what it holds now. */
  lemma AttestOne(c: Config, s: System, spend: CompactTx, x: Hash)
    requires Quiet(c, s) && spend.inputs == [x] && FrontEnd.CheckAttestations(c.sentinels, spend)
    requires s.shards[0].height >= 1 && x in s.shards[0].uhs
    ensures var snap := s.shards[0];
            var t := Do(c, Do(c, s, Capture(0)), Attest(0, snap, spend));
            t == s.(captured := s.captured + {(0, snap)},
                    notifications := s.notifications + {Notification(spend, {0}, snap.height)})
  {
    var snap := s.shards[0];
    assert OnShard(c.ranges[0], spend.inputs) == {0};
    assert Missing(c.ranges[0], snap.uhs, spend.inputs) == [];
  }

  lemma UhsOf(u: set<Hash>, tx: CompactTx)
    ensures Uhs(u, [tx]) == ApplyTx(u, tx)
  {
    assert [tx][..0] == [];
    assert Uhs(u, []) == u;
  }

  /** From a block that mints `x` to a block that spends it. */
  ghost function SpendSteps(blk: Block, snap: Snapshot, spend: CompactTx): seq<Step> {
    [ShardReceive(0, blk), Capture(0), Attest(0, snap, spend)]
  }

  lemma SpendRound(c: Config, s: System, blk: Block, mint: CompactTx, spend: CompactTx, x: Hash)
    requires Quiet(c, s) && MintAndSpend(c, mint, spend, x)
    requires blk in s.broadcast && blk == Block(s.shards[0].height + 1, [mint])
    requires s.machine.atomizer.height == blk.height && s.machine.atomizer.spent[0] == {}
    requires blk.height + 1 < U64_RANGE
    ensures var snap := Snapshot(blk.height, Uhs(s.shards[0].uhs, blk.txs));
            var t := After(c, s, SpendSteps(blk, snap, spend));
            var note := Notification(spend, {0}, blk.height);
            var u := After(c, t, SettleSteps(note, blk.height));
            && t == s.(shards := [snap], captured := s.captured + {(0, snap)},
                       notifications := s.notifications + {note})
            && Quiet(c, u) && Settled(t, note, u)
  {
    var snap := Snapshot(blk.height, Uhs(s.shards[0].uhs, blk.txs));
    Three(c, s, ShardReceive(0, blk), Capture(0), Attest(0, snap, spend));
    ReceiveOne(c, s, blk);
    UhsOf(s.shards[0].uhs, mint);
    assert x in mint.OutputSet();
    AttestOne(c, s.(shards := [snap]), spend, x);
    var t := After(c, s, SpendSteps(blk, snap, spend));
    SpendCompletes(c, spend, blk.height);
    FreshEnters(t.machine.atomizer, spend);
    SettleOne(c, t, Notification(spend, {0}, blk.height), blk.height);
  }

  // ---------------------------------------------------------------- the run

  /** The blocks cut so far are `chain` and on the network, and the shard is `behind` blocks behind. */
  ghost predicate Stage(c: Config, s: System, chain: seq<Block>, mint: CompactTx, behind: nat) {
    && Quiet(c, s) && s.chain == chain && s.machine.atomizer.height == |chain| && s.machine.atomizer.spent[0] == {}
    && Notification(mint, {}, 0) in s.notifications
    && s.shards[0].height + behind == |chain| && OnNetwork(chain, s.broadcast)
  }

  ghost predicate OnNetwork(chain: seq<Block>, broadcast: set<Block>) {
    forall b | b in chain :: b in broadcast
  }

  lemma OneMoreOnNetwork(chain: seq<Block>, blk: Block, before: set<Block>, broadcast: set<Block>)
    requires OnNetwork(chain, before) && before <= broadcast && blk in broadcast
    ensures OnNetwork(chain + [blk], broadcast)
  {
  }

  lemma StageNext(c: Config, s: System, chain: seq<Block>, mint: CompactTx, behind: nat, note: Notification, t: System)
    requires Stage(c, s, chain, mint, behind) && Quiet(c, t) && Settled(s, note, t)
    ensures Stage(c, t, chain + [Block(|chain| + 1, [note.tx])], mint, behind + 1)
  {
    OneMoreOnNetwork(chain, Block(|chain| + 1, [note.tx]), s.broadcast, t.broadcast);
  }

  lemma Start(c: Config, mint: CompactTx) returns (steps: seq<Step>)
    requires c.ranges == [Range(0, 255)] && c.replicas > 0 && c.depth + 1 < U64_RANGE && mint.Mint()
    ensures Stage(c, Run(c, steps), [], mint, 0)
  {
    steps := [SendMint(mint, 0)];
    assert steps[..0] == [];
    assert Run(c, []) == Init(c);
  }

  lemma MintStage(c: Config, s: System, chain: seq<Block>, mint: CompactTx, behind: nat)
    requires Stage(c, s, chain, mint, behind) && |chain| + 1 < U64_RANGE
    requires mint.Mint() && FrontEnd.CheckAttestations(c.sentinels, mint)
    ensures Stage(c, After(c, s, SettleSteps(Notification(mint, {}, 0), 0)),
                  chain + [Block(|chain| + 1, [mint])], mint, behind + 1)
  {
    MintRound(c, s, mint);
    var note := Notification(mint, {}, 0);
    StageNext(c, s, chain, mint, behind, note, After(c, s, SettleSteps(note, 0)));
  }

  lemma SpendStage(c: Config, s: System, chain: seq<Block>, mint: CompactTx, spend: CompactTx, x: Hash)
    requires MintAndSpend(c, mint, spend, x) && |chain| + 1 < U64_RANGE && chain != []
    requires Stage(c, s, chain, mint, 1) && chain[|chain| - 1] == Block(|chain|, [mint])
    ensures var blk := chain[|chain| - 1];
            var snap := Snapshot(blk.height, Uhs(s.shards[0].uhs, blk.txs));
            var t := After(c, After(c, s, SpendSteps(blk, snap, spend)),
                           SettleSteps(Notification(spend, {0}, blk.height), blk.height));
            Stage(c, t, chain + [Block(|chain| + 1, [spend])], mint, 1)
  {
    var blk := chain[|chain| - 1];
    assert blk in chain;
    SpendRound(c, s, blk, mint, spend, x);
    var snap := Snapshot(blk.height, Uhs(s.shards[0].uhs, blk.txs));
    var t := After(c, s, SpendSteps(blk, snap, spend));
    var note := Notification(spend, {0}, blk.height);
    assert Stage(c, t, chain, mint, 0);
    StageNext(c, t, chain, mint, 0, note, After(c, t, SettleSteps(note, blk.height)));
  }

  lemma CatchUp(c: Config, s: System, chain: seq<Block>, mint: CompactTx, blk: Block)
    requires Stage(c, s, chain, mint, 2) && blk in chain && blk.height == s.shards[0].height + 1
    ensures Stage(c, After(c, s, [ShardReceive(0, blk)]), chain, mint, 1)
  {
    ReceiveOne(c, s, blk);
    assert [ShardReceive(0, blk)][1..] == [];
    var t := Do(c, s, ShardReceive(0, blk));
    assert After(c, t, []) == t;
  }

  lemma HistoryOf(s: System, a: CompactTx, b: CompactTx)
    requires s.machine.atomizer.complete == []
    requires s.chain == [] + [Block(1, [a])] + [Block(2, [b])] + [Block(3, [a])] + [Block(4, [b])]
    ensures Accepted(s) == [a, b, a, b]
  {
    FlattenSnoc([], Block(1, [a]));
    FlattenSnoc([] + [Block(1, [a])], Block(2, [b]));
    FlattenSnoc([] + [Block(1, [a])] + [Block(2, [b])], Block(3, [a]));
    FlattenSnoc([] + [Block(1, [a])] + [Block(2, [b])] + [Block(3, [a])], Block(4, [b]));
    assert Flatten([]) == [];
  }

  lemma FirstRound(c: Config, mint: CompactTx, spend: CompactTx, x: Hash) returns (steps: seq<Step>)
    requires c.ranges == [Range(0, 255)] && c.replicas > 0 && c.depth + 1 < U64_RANGE
    requires MintAndSpend(c, mint, spend, x)
    ensures Stage(c, Run(c, steps), [] + [Block(1, [mint])] + [Block(2, [spend])], mint, 1)
  {
    steps := Start(c, mint);
    MintStage(c, Run(c, steps), [], mint, 0);
    steps := Further(c, steps, SettleSteps(Notification(mint, {}, 0), 0));
    steps := SpendFurther(c, steps, [] + [Block(1, [mint])], mint, spend, x);
  }

  lemma SecondMint(c: Config, first: seq<Step>, mint: CompactTx, spend: CompactTx) returns (steps: seq<Step>)
    requires mint.Mint() && FrontEnd.CheckAttestations(c.sentinels, mint)
    requires Stage(c, Run(c, first), [] + [Block(1, [mint])] + [Block(2, [spend])], mint, 1)
    ensures Stage(c, Run(c, steps), [] + [Block(1, [mint])] + [Block(2, [spend])] + [Block(3, [mint])], mint, 1)
  {
    var chain := [] + [Block(1, [mint])] + [Block(2, [spend])];
    MintStage(c, Run(c, first), chain, mint, 1);
    steps := Further(c, first, SettleSteps(Notification(mint, {}, 0), 0));
    assert (chain + [Block(3, [mint])])[1] == Block(2, [spend]);
    CatchUp(c, Run(c, steps), chain + [Block(3, [mint])], mint, Block(2, [spend]));
    steps := Further(c, steps, [ShardReceive(0, Block(2, [spend]))]);
  }

  /** Mint, spend, the same mint again, the same spend again: every check passes, and an id is consumed twice. */
  lemma SpentTwice(c: Config, mint: CompactTx, spend: CompactTx, x: Hash) returns (steps: seq<Step>)
    requires c.ranges == [Range(0, 255)] && c.replicas > 0 && c.depth + 1 < U64_RANGE
    requires MintAndSpend(c, mint, spend, x)
    ensures Accepted(Run(c, steps)) == [mint, spend, mint, spend] && !ConsumedOnce(Accepted(Run(c, steps)))
  {
    steps := FirstRound(c, mint, spend, x);
    steps := SecondMint(c, steps, mint, spend);
    var chain := [] + [Block(1, [mint])] + [Block(2, [spend])] + [Block(3, [mint])];
    steps := SpendFurther(c, steps, chain, mint, spend, x);
    HistoryOf(Run(c, steps), mint, spend);
    Twice(mint, spend, x);
  }

  lemma Twice(mint: CompactTx, spend: CompactTx, x: Hash)
    requires x in spend.inputs
    ensures !ConsumedOnce([mint, spend, mint, spend])
  {
    var hist := [mint, spend, mint, spend];
    assert x in hist[1].InputSet() * hist[3].InputSet();
  }

  lemma Further(c: Config, a: seq<Step>, b: seq<Step>) returns (steps: seq<Step>)
    ensures Run(c, steps) == After(c, Run(c, a), b)
  {
    RunAppend(c, a, b);
    steps := a + b;
  }

  lemma SpendFurther(c: Config, a: seq<Step>, chain: seq<Block>, mint: CompactTx, spend: CompactTx, x: Hash)
    returns (steps: seq<Step>)
    requires MintAndSpend(c, mint, spend, x) && |chain| + 1 < U64_RANGE && chain != []
    requires Stage(c, Run(c, a), chain, mint, 1) && chain[|chain| - 1] == Block(|chain|, [mint])
    ensures Stage(c, Run(c, steps), chain + [Block(|chain| + 1, [spend])], mint, 1)
  {
    var s, blk := Run(c, a), chain[|chain| - 1];
    var snap := Snapshot(blk.height, Uhs(s.shards[0].uhs, blk.txs));
    SpendStage(c, s, chain, mint, spend, x);
    steps := Further(c, a, SpendSteps(blk, snap, spend));
    steps := Further(c, steps, SettleSteps(Notification(spend, {0}, blk.height), blk.height));
  }

  // ---------------------------------------------------------------- an honest configuration

  function Bare(t: CompactTx): CompactTx { t.(attestations := map[]) }

  /** One sentinel that signs a mint of `x` and a transaction that turns `x` into `y`, and nothing else. */
  ghost function TwoSigned(mint: CompactTx, spend: CompactTx, depth: nat): Config {
    Config(FrontEnd.Sentinels({[]}, 1, (t, _, _) => t == Bare(mint) || t == Bare(spend)), {}, [Range(0, 255)], 1, depth)
  }

  lemma SignedIs(mint: CompactTx, spend: CompactTx, depth: nat, t: CompactTx)
    requires FrontEnd.CheckAttestations(TwoSigned(mint, spend, depth).sentinels, t)
    ensures Bare(t) == Bare(mint) || Bare(t) == Bare(spend)
  {
    assert t.attestations != map[];
    var k :| k in t.attestations;
  }

  lemma TwoSignedHonest(mint: CompactTx, spend: CompactTx, x: Hash, y: Hash, depth: nat)
    requires depth + 1 < U64_RANGE && mint.id != spend.id && x != y
    requires mint.inputs == [] && mint.outputs == [x] && spend.inputs == [x] && spend.outputs == [y]
    ensures Honest(TwoSigned(mint, spend, depth))
  {
    var c := TwoSigned(mint, spend, depth);
    forall t | FrontEnd.CheckAttestations(c.sentinels, t)
      ensures Distinct(t.inputs) && Distinct(t.outputs) && t.OutputSet() !! c.genesis
    {
      SignedIs(mint, spend, depth, t);
    }
    forall s, t | FrontEnd.CheckAttestations(c.sentinels, s) && FrontEnd.CheckAttestations(c.sentinels, t)
      ensures SameOrigin(s, t)
    {
      SignedIs(mint, spend, depth, s);
      SignedIs(mint, spend, depth, t);
    }
  }

  /** Honest sentinels do not prevent it, however deep the window: that mints are distinct is needed. */
  lemma DistinctMintsNeeded(depth: nat)
    requires depth + 1 < U64_RANGE
    ensures exists c: Config, steps: seq<Step> ::
      c.depth == depth && Honest(c) && !MintsDistinct(Accepted(Run(c, steps))) && !ConsumedOnce(Accepted(Run(c, steps)))
  {
    var x, y: Hash := seq(32, _ => 1), seq(32, _ => 2);
    var signed: map<PubKey, Signature> := map[[] := []];
    var mint, spend := CompactTx(x, [], [x], signed), CompactTx(y, [x], [y], signed);
    assert x[0] != y[0];
    var c := TwoSigned(mint, spend, depth);
    TwoSignedHonest(mint, spend, x, y, depth);
    assert Bare(mint) == mint.(attestations := map[]) && |signed| == 1;
    var steps := SpentTwice(c, mint, spend, x);
    var hist := Accepted(Run(c, steps));
    assert hist[0].Mint() && hist[2].Mint() && hist[0].id == hist[2].id;
  }
}

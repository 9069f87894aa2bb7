/** The replicated state machine: the atomizer, and the blocks it keeps until they are archived. */
module StateMachine {
  import opened Common
  import FrontEnd
  import Atomizer

  datatype Command =
    | AggregateTxs(batch: seq<FrontEnd.Aggregate>)
    | MakeBlock
    | GetBlock(height: nat)
    | Prune(height: nat)

  datatype Response =
    | NoResponse
    | Errors(errs: seq<TxError>)
    | Made(blk: Block, evicted: set<TxError>)
    | Found(blk: Block)

  datatype State = State(index: nat, atomizer: Atomizer.State, blocks: map<nat, Block>)
  {
    predicate Valid() { atomizer.Valid() }
  }

  function Initial(depth: nat): State {
    State(0, Atomizer.Initial(depth), map[])
  }

  ghost function InsertAll(a: Atomizer.State, batch: seq<FrontEnd.Aggregate>): (r: (Atomizer.State, seq<TxError>))
    requires a.Valid()
    ensures r.0.Valid()
  {
    if batch == [] then (a, [])
    else
      var n := |batch| - 1;
      var (a1, errs) := InsertAll(a, batch[..n]);
      var (a2, err) := Atomizer.InsertComplete(a1, batch[n].oldest, batch[n].tx);
      (a2, if err.Some? then errs + [err.value] else errs)
  }

  /** Blocks at or above `height`. */
  function Kept(blocks: map<nat, Block>, height: nat): map<nat, Block> {
    map h | h in blocks && blocks[h].height >= height :: blocks[h]
  }

  function Cache(blocks: map<nat, Block>, blk: Block): map<nat, Block> {
    if blk.height in blocks then blocks else blocks[blk.height := blk]
  }

  predicate Committable(s: State, cmd: Command) {
    s.Valid() && (cmd.MakeBlock? ==> s.atomizer.height + 1 < U64_RANGE)
  }

  ghost function Commit(s: State, cmd: Command): (r: (State, Response))
    requires Committable(s, cmd)
    ensures r.0.Valid()
  {
    var s1 := s.(index := s.index + 1);
    match cmd
    case AggregateTxs(batch) =>
      var (a, errs) := InsertAll(s.atomizer, batch);
      (s1.(atomizer := a), if errs == [] then NoResponse else Errors(errs))
    case MakeBlock =>
      var blk := Atomizer.NextBlock(s.atomizer);
      (s1.(atomizer := Atomizer.Rotate(s.atomizer), blocks := Cache(s.blocks, blk)),
       Made(blk, Atomizer.Evicted(s.atomizer)))
    case GetBlock(h) =>
      (s1, if h in s.blocks then Found(s.blocks[h]) else NoResponse)
    case Prune(h) =>
      (s1.(blocks := Kept(s.blocks, h)), NoResponse)
  }

  // ---------------------------------------------------------------- every aggregate is answered for

  /** An aggregate passes after those in `before`. */
  ghost predicate Passes(a: Atomizer.State, before: seq<FrontEnd.Aggregate>, g: FrontEnd.Aggregate)
    requires a.Valid()
  {
    Atomizer.InsertComplete(InsertAll(a, before).0, g.oldest, g.tx).1 == None
  }

  /** The transactions that pass, in order. */
  ghost function Passed(a: Atomizer.State, batch: seq<FrontEnd.Aggregate>): seq<CompactTx>
    requires a.Valid()
  {
    if batch == [] then []
    else
      var n := |batch| - 1;
      Passed(a, batch[..n]) + if Passes(a, batch[..n], batch[n]) then [batch[n].tx] else []
  }

  /** The others, in order. */
  ghost function Refused(a: Atomizer.State, batch: seq<FrontEnd.Aggregate>): seq<CompactTx>
    requires a.Valid()
  {
    if batch == [] then []
    else
      var n := |batch| - 1;
      Refused(a, batch[..n]) + if Passes(a, batch[..n], batch[n]) then [] else [batch[n].tx]
  }

  /** The errors are those of these transactions, one for each. */
  ghost predicate Answer(errs: seq<TxError>, txs: seq<CompactTx>) {
    |errs| == |txs| && forall k | 0 <= k < |txs| :: errs[k].id == txs[k].id
  }

  lemma RefusalNames(a: Atomizer.State, oldest: nat, tx: CompactTx)
    requires a.Valid()
    ensures var r := Atomizer.InsertComplete(a, oldest, tx);
            && (r.1.Some? ==> r.1.value.id == tx.id && r.0 == a)
            && (r.1.None? ==> r.0.complete == a.complete + [tx])
  {
  }

  lemma {:induction false} BatchSplit(a: Atomizer.State, batch: seq<FrontEnd.Aggregate>)
    requires a.Valid()
    ensures InsertAll(a, batch).0.complete == a.complete + Passed(a, batch)
    ensures Answer(InsertAll(a, batch).1, Refused(a, batch))
    ensures |Passed(a, batch)| + |Refused(a, batch)| == |batch|
  {
    if batch != [] {
      var n := |batch| - 1;
      BatchSplit(a, batch[..n]);
      RefusalNames(InsertAll(a, batch[..n]).0, batch[n].oldest, batch[n].tx);
    }
  }

  /** A committed batch is split in two: what passes joins the next block in order, and the response names the
      others, in order. Nothing is in both, and nothing in neither. */
  lemma BatchOutcome(s: State, batch: seq<FrontEnd.Aggregate>)
    requires Committable(s, AggregateTxs(batch))
    ensures var r, refused := Commit(s, AggregateTxs(batch)), Refused(s.atomizer, batch);
            && r.0.atomizer.complete == s.atomizer.complete + Passed(s.atomizer, batch)
            && r.0.blocks == s.blocks
            && (if refused == [] then r.1 == NoResponse else r.1.Errors? && Answer(r.1.errs, refused))
            && |Passed(s.atomizer, batch)| + |refused| == |batch|
  {
    BatchSplit(s.atomizer, batch);
  }
}

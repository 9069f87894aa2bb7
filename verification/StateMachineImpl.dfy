/** The state machine object, which owns its atomizer. */
module StateMachineImpl {
  import opened Common
  import FrontEnd
  import Spec = StateMachine
  import AtomizerImpl

  class StateMachine {
    var index: nat
    var blocks: map<nat, Block>
    const atomizer: AtomizerImpl.Atomizer

    ghost function State(): Spec.State
      reads this, atomizer
    {
      Spec.State(index, atomizer.State(), blocks)
    }

    constructor (depth: nat)
      requires depth + 1 < U64_RANGE
      ensures fresh(atomizer) && State() == Spec.Initial(depth) && State().Valid()
    {
      index := 0;
      blocks := map[];
      atomizer := new AtomizerImpl.Atomizer(0, depth);
    }

    method InsertAll(batch: seq<FrontEnd.Aggregate>) returns (errs: seq<TxError>)
      requires State().Valid()
      modifies atomizer
      ensures (atomizer.State(), errs) == Spec.InsertAll(old(atomizer.State()), batch)
    {
      errs := [];
      for k := 0 to |batch|
        invariant atomizer.State().Valid()
        invariant (atomizer.State(), errs) == Spec.InsertAll(old(atomizer.State()), batch[..k])
      {
        assert batch[..k + 1][..k] == batch[..k];
        var err := atomizer.InsertComplete(batch[k].oldest, batch[k].tx);
        if err.Some? {
          errs := errs + [err.value];
        }
      }
      assert batch[..|batch|] == batch;
    }

    /** Erases the cached blocks below `height`. */
    method PruneBlocks(height: nat)
      modifies `blocks
      ensures blocks == Spec.Kept(old(blocks), height)
    {
      var left := blocks.Keys;
      while left != {}
        invariant left <= old(blocks).Keys
        invariant blocks == map h | h in old(blocks) && (h in left || old(blocks)[h].height >= height) :: old(blocks)[h]
        decreases left
      {
        var h :| h in left;
        left := left - {h};
        if blocks[h].height < height {
          blocks := blocks - {h};
        }
      }
    }

    method Commit(logIndex: nat, cmd: Spec.Command) returns (resp: Spec.Response)
      requires logIndex == index + 1 && Spec.Committable(State(), cmd)
      modifies this, atomizer
      ensures State() == Spec.Commit(old(State()), cmd).0 && resp == Spec.Commit(old(State()), cmd).1
    {
      index := logIndex;
      match cmd
      case AggregateTxs(batch) =>
        var errs := InsertAll(batch);
        resp := if errs == [] then Spec.NoResponse else Spec.Errors(errs);
      case MakeBlock =>
        var blk, errs := atomizer.MakeBlock();
        if blk.height !in blocks {
          blocks := blocks[blk.height := blk];
        }
        resp := Spec.Made(blk, set e | e in errs);
      case GetBlock(h) =>
        resp := if h in blocks then Spec.Found(blocks[h]) else Spec.NoResponse;
      case Prune(h) =>
        PruneBlocks(h);
        resp := Spec.NoResponse;
    }
  }
}

/** The unspent hash set as a function of the whole history of accepted transactions,
    with no window, no shards and no network. The settlement protocol is measured against it. */
module Ledger {
  import opened Common

  /** A shard puts the outputs of a transaction first and then deletes its inputs. */
  function ApplyTx(u: set<Hash>, tx: CompactTx): set<Hash> {
    u + tx.OutputSet() - tx.InputSet()
  }

  /** The UHS after the given history, starting from the genesis set. */
  function Uhs(genesis: set<Hash>, hist: seq<CompactTx>): set<Hash> {
    if hist == [] then genesis
    else ApplyTx(Uhs(genesis, hist[..|hist| - 1]), hist[|hist| - 1])
  }

  function OutputsOf(txs: seq<CompactTx>): set<Hash> {
    set t, x | t in txs && x in t.outputs :: x
  }

  function Flatten(chain: seq<Block>): seq<CompactTx> {
    if chain == [] then [] else Flatten(chain[..|chain| - 1]) + chain[|chain| - 1].txs
  }

  /** The UHS after a chain of blocks. */
  function Replay(genesis: set<Hash>, chain: seq<Block>): set<Hash> {
    Uhs(genesis, Flatten(chain))
  }

  lemma {:induction false} UhsAppend(genesis: set<Hash>, a: seq<CompactTx>, b: seq<CompactTx>)
    ensures Uhs(genesis, a + b) == Uhs(Uhs(genesis, a), b)
    decreases |b|
  {
    if b == [] {
      assert a + b == a;
    } else {
      var n := |b| - 1;
      assert (a + b)[..|a + b| - 1] == a + b[..n];
      UhsAppend(genesis, a, b[..n]);
    }
  }

  lemma {:induction false} FlattenAppend(a: seq<Block>, b: seq<Block>)
    ensures Flatten(a + b) == Flatten(a) + Flatten(b)
    decreases |b|
  {
    if b == [] {
      assert a + b == a;
    } else {
      var n := |b| - 1;
      assert (a + b)[..|a + b| - 1] == a + b[..n];
      FlattenAppend(a, b[..n]);
    }
  }

  lemma FlattenSnoc(chain: seq<Block>, blk: Block)
    ensures Flatten(chain + [blk]) == Flatten(chain) + blk.txs
  {
    assert (chain + [blk])[..|chain|] == chain;
  }

  lemma {:induction false} InputsOfFlatten(chain: seq<Block>, x: Hash)
    ensures x in InputsOf(Flatten(chain)) <==> exists k :: 0 <= k < |chain| && x in InputsOf(chain[k].txs)
  {
    if chain != [] {
      var n := |chain| - 1;
      InputsOfFlatten(chain[..n], x);
      InputsOfAppend(Flatten(chain[..n]), chain[n].txs);
      if k :| 0 <= k < |chain| && x in InputsOf(chain[k].txs) {
        if k < n { assert chain[..n][k] == chain[k]; }
      }
      if k :| 0 <= k < n && x in InputsOf(chain[..n][k].txs) {
        assert chain[..n][k] == chain[k];
      }
    }
  }

  /** An id that is present and not consumed by what follows is still present. This is why a stale
      attestation together with the later spends is worth as much as a fresh look-up. */
  lemma {:induction false} Survives(genesis: set<Hash>, before: seq<CompactTx>, after: seq<CompactTx>, x: Hash)
    requires x in Uhs(genesis, before)
    requires x !in InputsOf(after)
    ensures x in Uhs(genesis, before + after)
    decreases |after|
  {
    if after == [] {
      assert before + after == before;
    } else {
      var n := |after| - 1;
      assert (before + after)[..|before + after| - 1] == before + after[..n];
      assert after == after[..n] + [after[n]];
      InputsOfAppend(after[..n], [after[n]]);
      assert after[n] in after;
      Survives(genesis, before, after[..n], x);
    }
  }

  // ---------------------------------------------------------------- sound histories

  /** Each transaction spends distinct ids that are unspent when it takes its place in the history. */
  ghost predicate Sound(genesis: set<Hash>, hist: seq<CompactTx>) {
    hist == [] ||
    var n := |hist| - 1;
    && Sound(genesis, hist[..n])
    && Distinct(hist[n].inputs)
    && hist[n].InputSet() <= Uhs(genesis, hist[..n])
  }

  lemma SoundSnoc(genesis: set<Hash>, hist: seq<CompactTx>, tx: CompactTx)
    requires Sound(genesis, hist)
    requires Distinct(tx.inputs) && tx.InputSet() <= Uhs(genesis, hist)
    ensures Sound(genesis, hist + [tx])
  {
    assert (hist + [tx])[..|hist|] == hist;
  }

  /** What collision resistance gives about two transactions of one history: ids name transactions,
      output ids name the transaction that made them. */
  predicate SameOrigin(a: CompactTx, b: CompactTx) {
    && (a.id == b.id ==> a.inputs == b.inputs && a.outputs == b.outputs)
    && (a.OutputSet() * b.OutputSet() != {} ==> a.id == b.id)
  }

  ghost predicate Genuine(genesis: set<Hash>, hist: seq<CompactTx>) {
    && (forall t | t in hist :: Distinct(t.outputs) && t.OutputSet() !! genesis)
    && (forall s, t | s in hist && t in hist :: SameOrigin(s, t))
  }

  /** No mint enters the history twice. */
  ghost predicate MintsDistinct(hist: seq<CompactTx>) {
    forall i, j | 0 <= i < j < |hist| && hist[i].Mint() && hist[j].Mint() :: hist[i].id != hist[j].id
  }

  ghost predicate CreatedOnce(hist: seq<CompactTx>) {
    forall i, j | 0 <= i < j < |hist| :: hist[i].OutputSet() !! hist[j].OutputSet()
  }

  ghost predicate ConsumedOnce(hist: seq<CompactTx>) {
    forall i, j | 0 <= i < j < |hist| :: hist[i].InputSet() !! hist[j].InputSet()
  }

  lemma OutputsOfSnoc(hist: seq<CompactTx>, tx: CompactTx)
    ensures OutputsOf(hist + [tx]) == OutputsOf(hist) + tx.OutputSet()
    ensures InputsOf(hist + [tx]) == InputsOf(hist) + tx.InputSet()
  {
    var h := hist + [tx];
    assert tx in h;
    forall x
      ensures x in OutputsOf(h) <==> x in OutputsOf(hist) + tx.OutputSet()
      ensures x in InputsOf(h) <==> x in InputsOf(hist) + tx.InputSet()
    {
      if t :| t in hist && x in t.outputs { assert t in h; }
      if t :| t in hist && x in t.inputs { assert t in h; }
    }
  }

  lemma MemberSets(hist: seq<CompactTx>, t: CompactTx)
    requires t in hist
    ensures t.OutputSet() <= OutputsOf(hist) && t.InputSet() <= InputsOf(hist)
  {
  }

  /** `Fresh` says about the last transaction of every prefix what `CreatedOnce` says about pairs. */
  ghost predicate Fresh(genesis: set<Hash>, hist: seq<CompactTx>) {
    hist == [] ||
    var n := |hist| - 1;
    Fresh(genesis, hist[..n]) && hist[n].OutputSet() !! genesis + OutputsOf(hist[..n])
  }

  lemma CreatedMinusSpentStep(genesis: set<Hash>, created: set<Hash>, spent: set<Hash>, u: set<Hash>, tx: CompactTx)
    requires u == genesis + created - spent && spent <= genesis + created
    requires tx.InputSet() <= u && tx.OutputSet() !! genesis + created
    ensures ApplyTx(u, tx) == genesis + (created + tx.OutputSet()) - (spent + tx.InputSet())
    ensures spent + tx.InputSet() <= genesis + (created + tx.OutputSet())
  {
  }

  /** The UHS of a sound history in which nothing is created twice is what was created and never spent. */
  lemma {:induction false} UhsIsCreatedMinusSpent(genesis: set<Hash>, hist: seq<CompactTx>)
    requires Sound(genesis, hist) && Fresh(genesis, hist)
    ensures Uhs(genesis, hist) == genesis + OutputsOf(hist) - InputsOf(hist)
    ensures InputsOf(hist) <= genesis + OutputsOf(hist)
  {
    if hist != [] {
      var n := |hist| - 1;
      var init, tx := hist[..n], hist[n];
      assert hist == init + [tx];
      UhsIsCreatedMinusSpent(genesis, init);
      OutputsOfSnoc(init, tx);
      CreatedMinusSpentStep(genesis, OutputsOf(init), InputsOf(init), Uhs(genesis, init), tx);
    }
  }

  /** If the last transaction shared an output with an earlier one it would be the earlier one again:
      a mint repeated, or a spend of ids that are gone. */
  lemma LastIsFresh(genesis: set<Hash>, init: seq<CompactTx>, tx: CompactTx)
    requires Sound(genesis, init) && Fresh(genesis, init)
    requires tx.InputSet() <= Uhs(genesis, init)
    requires forall t | t in init :: SameOrigin(t, tx) && !(t.Mint() && tx.Mint() && t.id == tx.id)
    requires tx.OutputSet() !! genesis
    ensures tx.OutputSet() !! genesis + OutputsOf(init)
    ensures tx.InputSet() !! InputsOf(init)
  {
    UhsIsCreatedMinusSpent(genesis, init);
    forall t | t in init ensures t.OutputSet() !! tx.OutputSet() {
      MemberSets(init, t);
      OtherOrigin(t, tx);
    }
    forall x | x in OutputsOf(init) ensures x !in tx.OutputSet() {
      var t :| t in init && x in t.outputs;
      assert x in t.OutputSet();
    }
  }

  /** Transactions with nothing to spend in common are different, unless both are mints. */
  lemma OtherOrigin(t: CompactTx, tx: CompactTx)
    requires SameOrigin(t, tx) && !(t.Mint() && tx.Mint() && t.id == tx.id) && t.InputSet() !! tx.InputSet()
    ensures t.id != tx.id && t.OutputSet() !! tx.OutputSet()
  {
    assert t.Mint() || t.inputs[0] in t.InputSet();
    assert t.OutputSet() * tx.OutputSet() == {};
    forall x | x in t.OutputSet() ensures x !in tx.OutputSet() {
      assert x in t.OutputSet() * tx.OutputSet() <==> x in tx.OutputSet();
    }
  }

  lemma PrefixGenuine(genesis: set<Hash>, init: seq<CompactTx>, tx: CompactTx)
    requires Genuine(genesis, init + [tx]) && MintsDistinct(init + [tx])
    ensures Genuine(genesis, init) && MintsDistinct(init) && tx.OutputSet() !! genesis
    ensures forall t | t in init :: SameOrigin(t, tx) && !(t.Mint() && tx.Mint() && t.id == tx.id)
  {
    var hist := init + [tx];
    assert forall t | t in init :: t in hist;
    assert hist[|init|] == tx && tx in hist;
    forall t | t in init ensures SameOrigin(t, tx) && !(t.Mint() && tx.Mint() && t.id == tx.id) {
      var i :| 0 <= i < |init| && init[i] == t;
      assert hist[i] == t;
    }
    forall i, j | 0 <= i < j < |init| && init[i].Mint() && init[j].Mint() ensures init[i].id != init[j].id {
      assert hist[i] == init[i] && hist[j] == init[j];
    }
  }

  lemma OnceSnoc(init: seq<CompactTx>, tx: CompactTx)
    requires CreatedOnce(init) && tx.OutputSet() !! OutputsOf(init)
    requires ConsumedOnce(init) && tx.InputSet() !! InputsOf(init)
    ensures CreatedOnce(init + [tx]) && ConsumedOnce(init + [tx])
  {
    var hist := init + [tx];
    forall i, j | 0 <= i < j < |hist|
      ensures hist[i].OutputSet() !! hist[j].OutputSet() && hist[i].InputSet() !! hist[j].InputSet()
    {
      if j == |init| { MemberSets(init, init[i]); }
    }
  }

  /** In every sound, genuine history whose mints are distinct, no id is created twice and none is
      consumed twice. */
  lemma {:induction false} NoDoubleSpend(genesis: set<Hash>, hist: seq<CompactTx>)
    requires Sound(genesis, hist) && Genuine(genesis, hist) && MintsDistinct(hist)
    ensures Fresh(genesis, hist) && CreatedOnce(hist) && ConsumedOnce(hist)
  {
    if hist != [] {
      var n := |hist| - 1;
      var init, tx := hist[..n], hist[n];
      assert hist == init + [tx];
      PrefixGenuine(genesis, init, tx);
      NoDoubleSpend(genesis, init);
      LastIsFresh(genesis, init, tx);
      OnceSnoc(init, tx);
    }
  }

  /** Distinct mints are exactly what freshness of all output ids comes down to. */
  lemma FreshIffMintsDistinct(genesis: set<Hash>, hist: seq<CompactTx>)
    requires Sound(genesis, hist) && Genuine(genesis, hist)
    requires forall t | t in hist && t.Mint() :: t.outputs != []
    ensures CreatedOnce(hist) <==> MintsDistinct(hist)
  {
    if MintsDistinct(hist) {
      NoDoubleSpend(genesis, hist);
    } else {
      var i, j :| 0 <= i < j < |hist| && hist[i].Mint() && hist[j].Mint() && hist[i].id == hist[j].id;
      assert hist[i] in hist && hist[j] in hist;
      assert SameOrigin(hist[i], hist[j]);
      assert hist[i].outputs[0] in hist[i].OutputSet() * hist[j].OutputSet();
    }
  }

  lemma UhsSnoc(genesis: set<Hash>, hist: seq<CompactTx>, tx: CompactTx)
    ensures Uhs(genesis, hist + [tx]) == ApplyTx(Uhs(genesis, hist), tx)
  {
    assert (hist + [tx])[..|hist|] == hist;
  }
}

/** The bounded window of spent ids against the full history. */
module Window {
  import opened Common
  import opened Ledger
  import Atomizer

  /** Slot 0 holds what the next block spends, slot `i` what the block `i - 1` below the top spent. */
  ghost predicate Tracks(a: Atomizer.State, chain: seq<Block>) {
    && a.Valid() && |chain| == a.height
    && a.spent[0] == InputsOf(a.complete)
    && (forall i | 1 <= i <= a.depth ::
          a.spent[i] == if i <= |chain| then InputsOf(chain[|chain| - i].txs) else {})
  }

  /** Every transaction accepted so far, in order of acceptance. */
  function History(a: Atomizer.State, chain: seq<Block>): seq<CompactTx> {
    Flatten(chain) + a.complete
  }

  /** What was accepted after block `h`. */
  function Since(a: Atomizer.State, chain: seq<Block>, h: nat): seq<CompactTx>
    requires h <= |chain|
  {
    Flatten(chain[h..]) + a.complete
  }

  lemma InitialTracks(depth: nat)
    requires depth + 1 < U64_RANGE
    ensures Tracks(Atomizer.Initial(depth), [])
  {
    assert InputsOf([]) == {};
  }

  lemma AcceptTracks(a: Atomizer.State, chain: seq<Block>, tx: CompactTx)
    requires Tracks(a, chain)
    ensures Tracks(Atomizer.Accept(a, tx), chain)
    ensures History(Atomizer.Accept(a, tx), chain) == History(a, chain) + [tx]
  {
    OutputsOfSnoc(a.complete, tx);
  }

  /** Cutting a block moves no transaction in the history. */
  lemma RotateTracks(a: Atomizer.State, chain: seq<Block>)
    requires Tracks(a, chain) && a.height + 1 < U64_RANGE
    ensures Tracks(Atomizer.Rotate(a), chain + [Atomizer.NextBlock(a)])
    ensures History(Atomizer.Rotate(a), chain + [Atomizer.NextBlock(a)]) == History(a, chain)
  {
    var b := Atomizer.Rotate(a);
    var chain' := chain + [Atomizer.NextBlock(a)];
    assert InputsOf([]) == {};
    forall i | 1 <= i <= b.depth
      ensures b.spent[i] == if i <= |chain'| then InputsOf(chain'[|chain'| - i].txs) else {}
    {
      assert b.spent[i] == a.spent[i - 1];
    }
    FlattenSnoc(chain, Atomizer.NextBlock(a));
  }

  lemma SlotIsBlock(a: Atomizer.State, chain: seq<Block>, h: nat, x: Hash)
    requires Tracks(a, chain) && h <= |chain| && |chain| - h <= a.depth
    ensures (exists o :: 0 <= o < |chain| - h + 1 && o < |a.spent| && x in a.spent[o])
       <==> (x in InputsOf(a.complete) || exists k :: 0 <= k < |chain| - h && x in InputsOf(chain[h..][k].txs))
  {
    var n := |chain|;
    if o :| 0 <= o < n - h + 1 && o < |a.spent| && x in a.spent[o] {
      if o > 0 { assert chain[h..][n - o - h] == chain[n - o]; }
    }
    if k :| 0 <= k < n - h && x in InputsOf(chain[h..][k].txs) {
      assert chain[h..][k] == chain[h + k];
      assert x in a.spent[n - (h + k)];
    }
    if x in InputsOf(a.complete) { assert x in a.spent[0]; }
  }

  /** Scanning the window down to height `h` finds exactly what a search of every block after `h`, and
      of the block being assembled, would find. */
  lemma WindowIsHistory(a: Atomizer.State, chain: seq<Block>, h: nat, inputs: seq<Hash>)
    requires Tracks(a, chain) && h <= |chain| && |chain| - h <= a.depth
    ensures Atomizer.Clashes(a.spent, inputs, |chain| - h) ==
            set x | x in inputs && x in InputsOf(Since(a, chain, h))
  {
    forall x | x in inputs
      ensures x in Atomizer.Clashes(a.spent, inputs, |chain| - h) <==> x in InputsOf(Since(a, chain, h))
    {
      SlotIsBlock(a, chain, h, x);
      InputsOfFlatten(chain[h..], x);
      InputsOfAppend(Flatten(chain[h..]), a.complete);
    }
  }

  /** The atomizer's decision, without the window: accepted means recent enough and untouched since the
      oldest attestation. Transactions without inputs are always accepted. */
  lemma DecidesByHistory(a: Atomizer.State, chain: seq<Block>, oldest: nat, tx: CompactTx)
    requires Tracks(a, chain) && oldest <= |chain|
    ensures Atomizer.InsertComplete(a, oldest, tx).1 == None <==>
            (tx.Mint() || (|chain| - oldest <= a.depth && tx.InputSet() !! InputsOf(Since(a, chain, oldest))))
    ensures Atomizer.InsertComplete(a, oldest, tx).0 ==
            if Atomizer.InsertComplete(a, oldest, tx).1 == None then Atomizer.Accept(a, tx) else a
  {
    if tx.Mint() {
      assert Atomizer.Clashes(a.spent, tx.inputs, |chain| - oldest) == {};
    } else if |chain| - oldest <= a.depth {
      WindowIsHistory(a, chain, oldest, tx.inputs);
      var later := InputsOf(Since(a, chain, oldest));
      var clashes := Atomizer.Clashes(a.spent, tx.inputs, |chain| - oldest);
      assert forall x :: x in clashes <==> x in tx.InputSet() && x in later;
      if x :| x in tx.InputSet() && x in later { assert x in clashes; }
    }
  }

  /** An attestation height the atomizer has not reached yet wraps around, and is turned away unless
      it lies within `depth` of the largest 64-bit number. */
  lemma FutureAttestationRejected(a: Atomizer.State, oldest: nat, tx: CompactTx)
    requires a.Valid() && a.height < oldest < U64_RANGE && !tx.Mint()
    ensures Atomizer.InsertComplete(a, oldest, tx) == (a, Some(TxError(tx.id, StxoRange))) <==>
            oldest - a.height < U64_RANGE - a.depth
  {
  }
}

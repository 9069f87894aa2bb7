/** Two runs of a client with one coin after which its funds are not conserved. */
module ClientRuns {
  import opened Common
  import opened Identifiers
  import opened Coins
  import opened Client

  /** No seeds, and these coins, set, pending transactions and pending spends. */
  ghost predicate At(c: State, queue: seq<Input>, points: set<OutPoint>, txs: map<Hash, FullTx>,
                     pending: map<Hash, Input>)
  {
    && c.seeds == [] && c.purse.queue == queue && c.purse.utxos.Keys == points
    && c.pendingTxs == txs && c.pendingSpend == pending
  }

  lemma RunSnoc(h: Digest, known: set<Input>, start: State, events: seq<Event>, e: Event)
    ensures var (c, a) := Run(h, known, start, events);
            Run(h, known, start, events + [e]) == if Allowed(h, known, c, e) then Next(h, known, c, a, e) else (c, a)
  {
    assert (events + [e])[..|events|] == events;
  }

  lemma PickAt(h: Digest, c: State, i: Input)
    requires At(c, [i], {i.prevout}, map[], map[])
    ensures |c.Coins()| == 1 && At(Create(h, c, 1), [], {}, map[], map[InputHash(h, i) := i])
  {
    assert c.Coins() == [i];
    assert Create(h, c, 1) == PickOne(h, Create(h, c, 0));
  }

  lemma SendAt(h: Digest, c: State, queue: seq<Input>, points: set<OutPoint>, pending: map<Hash, Input>, tx: FullTx)
    requires tx.Sized() && At(c, queue, points, map[], pending)
    ensures At(Send(h, c, tx), queue, points, map[TxId(h, tx) := tx], pending)
  {
  }

  lemma AbandonAt(h: Digest, c: State, i: Input, tx: FullTx)
    requires tx.Sized() && tx.inputs == [i] && At(c, [], {}, map[TxId(h, tx) := tx], map[InputHash(h, i) := i])
    ensures At(Abandon(h, c, TxId(h, tx)), [i], {i.prevout}, map[], map[])
  {
    var d := c.(pendingTxs := map[]);
    assert c.pendingTxs - {TxId(h, tx)} == map[];
    assert [i][..0] == [];
    assert Release(h, d, []) == d;
    assert Release(h, d, [i]) == ReleaseOne(h, d, i);
    assert map[InputHash(h, i) := i] - {InputHash(h, i)} == map[];
  }

  /** Confirming a transaction that spends `i`, with at most one output that is credited. */
  lemma ConfirmAt(h: Digest, c: State, queue: seq<Input>, points: set<OutPoint>, pending: map<Hash, Input>,
                  i: Input, tx: FullTx, keys: set<Hash>)
    requires tx.Sized() && tx.inputs == [i] && At(c, queue, points, map[TxId(h, tx) := tx], pending)
    ensures Own(h, keys, tx) == [] ==>
      At(Confirm(h, c, TxId(h, tx), keys), queue, points - {i.prevout}, map[], pending - {InputHash(h, i)})
    ensures |Own(h, keys, tx)| == 1 && Own(h, keys, tx)[0].prevout !in points ==>
      var x := Own(h, keys, tx)[0];
      At(Confirm(h, c, TxId(h, tx), keys), queue + [x], points + {x.prevout} - {i.prevout}, map[],
         pending - {InputHash(h, i)})
  {
    var own := Own(h, keys, tx);
    assert c.pendingTxs - {TxId(h, tx)} == map[];
    assert [i][..0] == [];
    assert Forget(h, pending, []) == pending;
    assert Forget(h, pending, [i]) == pending - {InputHash(h, i)};
    DebitIs(Add(c.purse, own).utxos, [i]);
    assert (set d | d in [i] :: d.prevout) == {i.prevout};
    if |own| == 1 {
      assert own[..0] == [] && own == [own[0]];
      assert Add(c.purse, []) == c.purse;
      assert Add(c.purse, own) == AddOne(c.purse, own[0]);
    }
  }

  lemma {:induction false} OwnsNothing(h: Digest, tx: FullTx, n: nat)
    requires tx.Sized() && n <= |tx.outputs|
    ensures OwnOutputs(h, {}, tx, n) == []
  {
    if n > 0 { OwnsNothing(h, tx, n - 1); }
  }

  /** A transaction that is sent, abandoned and then sent once more may settle while its coin is in the wallet:
      the coin is then spent, and the wallet will spend it again. */
  lemma ResendLosesTrack(h: Digest, coin: Input, tx: FullTx, start: State)
    requires tx.Sized() && tx.inputs == [coin] && At(start, [coin], {coin.prevout}, map[], map[])
    ensures var id := TxId(h, tx);
            var events := [] + [Creating(1)] + [Sending(tx)] + [Abandoning(id)] + [Sending(tx)] + [Confirming(id, {})];
            var (c, a) := Run(h, {coin}, start, events);
            c.purse.queue == [coin] && c.purse.utxos == map[] && coin.prevout in a.spent && !Conserved(c, a)
  {
    var id, known := TxId(h, tx), {coin};
    var e1 := [] + [Creating(1)];
    var e4 := e1 + [Sending(tx)] + [Abandoning(id)] + [Sending(tx)];
    SentTwice(h, coin, tx, start, e1, e4);
    var (c, a) := Run(h, known, start, e4);
    OwnsNothing(h, tx, |tx.outputs|);
    ConfirmAt(h, c, [coin], {coin.prevout}, map[], coin, tx, {});
    RunSnoc(h, known, start, e4, Confirming(id, {}));
    PointSetOne(coin);
    var (d, b) := Run(h, known, start, e4 + [Confirming(id, {})]);
    assert d.Coins() == [coin];
    assert coin.prevout in Held(d);
  }

  lemma SentTwice(h: Digest, coin: Input, tx: FullTx, start: State, e1: seq<Event>, e4: seq<Event>)
    requires tx.Sized() && tx.inputs == [coin] && At(start, [coin], {coin.prevout}, map[], map[])
    requires e1 == [] + [Creating(1)] && e4 == e1 + [Sending(tx)] + [Abandoning(TxId(h, tx))] + [Sending(tx)]
    ensures At(Run(h, {coin}, start, e4).0, [coin], {coin.prevout}, map[TxId(h, tx) := tx], map[])
  {
    var id, known := TxId(h, tx), {coin};
    var e2 := e1 + [Sending(tx)];
    var e3 := e2 + [Abandoning(id)];
    PickAt(h, start, coin);
    RunSnoc(h, known, start, [], Creating(1));
    var picked := Run(h, known, start, e1).0;
    SendAt(h, picked, [], {}, map[InputHash(h, coin) := coin], tx);
    RunSnoc(h, known, start, e1, Sending(tx));
    AbandonAt(h, Run(h, known, start, e2).0, coin, tx);
    RunSnoc(h, known, start, e2, Abandoning(id));
    SendAt(h, Run(h, known, start, e3).0, [coin], {coin.prevout}, map[], tx);
    RunSnoc(h, known, start, e3, Sending(tx));
  }

  // ---------------------------------------------------------------- confirmed twice

  /** The output that comes back to the wallet. */
  ghost predicate Change(h: Digest, tx: FullTx, keys: set<Hash>, x: Input) {
    tx.Sized() && Own(h, keys, tx) == [x]
  }

  /** Create, send and confirm, from a wallet with one coin. */
  lemma OnceThrough(h: Digest, known: set<Input>, coin: Input, tx: FullTx, keys: set<Hash>, x: Input, start: State,
                    e3: seq<Event>)
    requires tx.inputs == [coin] && Change(h, tx, keys, x) && known == {coin, x} && x.prevout != coin.prevout
    requires At(start, [coin], {coin.prevout}, map[], map[])
    requires e3 == [] + [Creating(1)] + [Sending(tx)] + [Confirming(TxId(h, tx), keys)]
    ensures At(Run(h, known, start, e3).0, [x], {x.prevout}, map[], map[])
  {
    var id := TxId(h, tx);
    var e2 := [] + [Creating(1)] + [Sending(tx)];
    SentOnce(h, known, coin, tx, start, e2);
    ConfirmAt(h, Run(h, known, start, e2).0, [], {}, map[InputHash(h, coin) := coin], coin, tx, keys);
    RunSnoc(h, known, start, e2, Confirming(id, keys));
    assert map[InputHash(h, coin) := coin] - {InputHash(h, coin)} == map[];
    assert [] + [x] == [x] && {} + {x.prevout} - {coin.prevout} == {x.prevout};
  }

  lemma SentOnce(h: Digest, known: set<Input>, coin: Input, tx: FullTx, start: State, e2: seq<Event>)
    requires tx.Sized() && tx.inputs == [coin] && coin in known && At(start, [coin], {coin.prevout}, map[], map[])
    requires e2 == [] + [Creating(1)] + [Sending(tx)]
    ensures At(Run(h, known, start, e2).0, [], {}, map[TxId(h, tx) := tx], map[InputHash(h, coin) := coin])
  {
    var e1 := [] + [Creating(1)];
    PickAt(h, start, coin);
    RunSnoc(h, known, start, [], Creating(1));
    SendAt(h, Run(h, known, start, e1).0, [], {}, map[InputHash(h, coin) := coin], tx);
    RunSnoc(h, known, start, e1, Sending(tx));
  }

  /** A transaction that is sent again after it was confirmed, and then reported again, is credited again: its
      output comes back to the wallet while it is tied up in another transaction. */
  lemma ReconfirmReturns(h: Digest, coin: Input, tx: FullTx, keys: set<Hash>, x: Input, start: State)
    requires tx.inputs == [coin] && Change(h, tx, keys, x) && x.prevout != coin.prevout
    requires InputHash(h, x) != InputHash(h, coin) && At(start, [coin], {coin.prevout}, map[], map[])
    ensures var confirm := Confirming(TxId(h, tx), keys);
            var e3 := [] + [Creating(1)] + [Sending(tx)] + [confirm];
            var (c, a) := Run(h, {coin, x}, start, e3 + [Creating(1)] + [Sending(tx)] + [confirm]);
            c.purse.queue == [x] && Tied(h, c.pendingSpend, x) && !Conserved(c, a)
  {
    var known, confirm := {coin, x}, Confirming(TxId(h, tx), keys);
    var e3 := [] + [Creating(1)] + [Sending(tx)] + [confirm];
    var e4 := e3 + [Creating(1)];
    var e5 := e4 + [Sending(tx)];
    var pending := map[InputHash(h, x) := x];
    OnceThrough(h, known, coin, tx, keys, x, start, e3);
    PickAt(h, Run(h, known, start, e3).0, x);
    RunSnoc(h, known, start, e3, Creating(1));
    SendAt(h, Run(h, known, start, e4).0, [], {}, pending, tx);
    RunSnoc(h, known, start, e4, Sending(tx));
    ConfirmAt(h, Run(h, known, start, e5).0, [], {}, pending, coin, tx, keys);
    RunSnoc(h, known, start, e5, confirm);
    var (c, a) := Run(h, known, start, e5 + [confirm]);
    assert c.purse.queue == [] + [x] && c.pendingSpend == pending - {InputHash(h, coin)};
    assert c.Coins() == [x];
    PointSetOne(x);
    assert x.prevout in PendingPoints(c.pendingSpend) by { assert c.pendingSpend[InputHash(h, x)] == x; }
  }
}

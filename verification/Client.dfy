/** Where the client's money is: in the wallet, tied up in transactions that have not been settled, or
    spent. */
module Client {
  import opened Common
  import opened Identifiers
  import opened Validation
  import opened Coins

  datatype State = State(
    /** Seeds that have not been spent; they are spent first. */
    seeds: seq<Input>,
    purse: Purse,
    pendingTxs: map<Hash, FullTx>,
    /** Inputs that were picked for a transaction, by their hash. */
    pendingSpend: map<Hash, Input>
  )
  {
    /** Everything the wallet can spend, in the order in which it will. */
    function Coins(): seq<Input> { seeds + purse.queue }
  }

  // ---------------------------------------------------------------- what the client does

  function RegisterOne(h: Digest, pending: map<Hash, Input>, i: Input): map<Hash, Input> {
    if InputHash(h, i) in pending then pending else pending[InputHash(h, i) := i]
  }

  function Register(h: Digest, pending: map<Hash, Input>, ins: seq<Input>): map<Hash, Input> {
    if ins == [] then pending else RegisterOne(h, Register(h, pending, ins[..|ins| - 1]), ins[|ins| - 1])
  }

  /** The wallet gives up its first coin for a transaction. */
  function PickOne(h: Digest, c: State): State
    requires c.Coins() != []
  {
    var pending := RegisterOne(h, c.pendingSpend, c.Coins()[0]);
    if c.seeds != [] then c.(seeds := c.seeds[1..], pendingSpend := pending)
    else c.(purse := PopOne(c.purse), pendingSpend := pending)
  }

  /** The wallet gives up its first `n` coins for a transaction. */
  function Create(h: Digest, c: State, n: nat): (d: State)
    requires n <= |c.Coins()|
    ensures d.Coins() == c.Coins()[n..] && d.pendingTxs == c.pendingTxs
  {
    if n == 0 then c
    else
      assert Create(h, c, n - 1).Coins()[1..] == c.Coins()[n..];
      PickOne(h, Create(h, c, n - 1))
  }

  /** A transaction that is already pending is left alone. */
  function Send(h: Digest, c: State, tx: FullTx): State
    requires tx.Sized()
  {
    if TxId(h, tx) in c.pendingTxs then c else c.(pendingTxs := c.pendingTxs[TxId(h, tx) := tx])
  }

  function Forget(h: Digest, pending: map<Hash, Input>, ins: seq<Input>): map<Hash, Input> {
    if ins == [] then pending else Forget(h, pending, ins[..|ins| - 1]) - {InputHash(h, ins[|ins| - 1])}
  }

  /** Outputs that the wallet has keys for are credited and the inputs debited; they are no longer tied up. */
  function Confirm(h: Digest, c: State, id: Hash, keys: set<Hash>): State
    requires id in c.pendingTxs ==> c.pendingTxs[id].Sized()
  {
    if id !in c.pendingTxs then c
    else
      var tx := c.pendingTxs[id];
      State(c.seeds, Strike(Add(c.purse, Own(h, keys, tx)), tx.inputs),
            c.pendingTxs - {id}, Forget(h, c.pendingSpend, tx.inputs))
  }

  /** The outputs of `tx` that are credited. */
  function Own(h: Digest, keys: set<Hash>, tx: FullTx): seq<Input>
    requires tx.Sized()
  {
    OwnOutputs(h, keys, tx, |tx.outputs|)
  }

  predicate Used(txs: map<Hash, FullTx>, i: Input) {
    exists id :: id in txs && i in txs[id].inputs
  }

  /** One input of an abandoned transaction: back to the wallet if it is still tied up and nothing else
      needs it. */
  function ReleaseOne(h: Digest, c: State, i: Input): State {
    if InputHash(h, i) in c.pendingSpend && !Used(c.pendingTxs, i)
    then c.(purse := AddOne(c.purse, i), pendingSpend := c.pendingSpend - {InputHash(h, i)})
    else c
  }

  function Release(h: Digest, c: State, ins: seq<Input>): State {
    if ins == [] then c else ReleaseOne(h, Release(h, c, ins[..|ins| - 1]), ins[|ins| - 1])
  }

  function Abandon(h: Digest, c: State, id: Hash): State {
    if id !in c.pendingTxs then c
    else Release(h, c.(pendingTxs := c.pendingTxs - {id}), c.pendingTxs[id].inputs)
  }

  // ---------------------------------------------------------------- accounts

  datatype Accounts = Accounts(
    /** What has ever been credited. */
    credited: set<OutPoint>,
    /** Every out-point that a confirmed transaction has spent. */
    spent: set<OutPoint>,
    /** The confirmed transactions, and those that the first coins came from. */
    confirmed: set<Hash>
  )

  function PointSet(q: seq<Input>): set<OutPoint> { set p | p in Points(q) }

  function TxIds(points: set<OutPoint>): set<Hash> { set p | p in points :: p.txId }

  ghost function PendingPoints(pending: map<Hash, Input>): set<OutPoint> {
    set x | x in pending :: pending[x].prevout
  }

  ghost predicate Tied(h: Digest, pending: map<Hash, Input>, i: Input) {
    InputHash(h, i) in pending && pending[InputHash(h, i)] == i
  }

  /** Everything the client still holds: in the wallet or picked for a transaction. */
  ghost function Held(c: State): set<OutPoint> { PointSet(c.Coins()) + PendingPoints(c.pendingSpend) }

  /** Transactions are filed under their ids, and only known inputs occur. */
  ghost predicate InUse(h: Digest, known: set<Input>, c: State) {
    && (forall id | id in c.pendingTxs :: c.pendingTxs[id].Sized() && TxId(h, c.pendingTxs[id]) == id)
    && (forall id, i | id in c.pendingTxs && i in c.pendingTxs[id].inputs :: i in known)
    && (forall i | i in c.Coins() :: i in known)
    && FiledKnown(h, known, c.pendingSpend)
  }

  /** Pending inputs are known, and filed under their own hash. */
  ghost predicate FiledKnown(h: Digest, known: set<Input>, pending: map<Hash, Input>) {
    forall x | x in pending :: pending[x] in known && InputHash(h, pending[x]) == x
  }

  /** What every run keeps, whatever is sent and confirmed: nothing credited and unspent is lost, and nothing
      is made up. */
  ghost predicate Inv(h: Digest, known: set<Input>, c: State, a: Accounts) {
    && InUse(h, known, c)
    && c.purse.utxos.Keys <= PointSet(c.purse.queue)
    && a.credited - a.spent <= Held(c) <= a.credited
    && TxIds(a.credited) <= a.confirmed
  }

  ghost predicate FiledOnce(pending: map<Hash, Input>) {
    forall x, y | x in pending && y in pending && pending[x].prevout == pending[y].prevout :: x == y
  }

  /** Nothing is held twice, nothing spent is held, and the wallet's set is its queue. With `Inv`: everything
      credited is in the wallet, tied up or spent, in exactly one place. */
  ghost predicate Conserved(c: State, a: Accounts) {
    && Distinct(Points(c.Coins())) && c.purse.utxos.Keys == PointSet(c.purse.queue)
    && FiledOnce(c.pendingSpend) && PointSet(c.Coins()) !! PendingPoints(c.pendingSpend)
    && a.spent !! Held(c)
  }

  /** No two of the inputs in use, as they are written out, share a digest. */
  ghost predicate NoCollisions(h: Digest, known: set<Input>) {
    InjectiveOn(h, InputMessages(known))
  }

  ghost function InputMessages(known: set<Input>): iset<seq<byte>> {
    iset i | i in known :: InputBytes(i)
  }

  lemma HashApart(h: Digest, known: set<Input>, i: Input, j: Input)
    requires NoCollisions(h, known) && i in known && j in known && InputHash(h, i) == InputHash(h, j)
    ensures i == j
  {
    assert InputBytes(i) in InputMessages(known) && InputBytes(j) in InputMessages(known);
    InputBytesInjective(i, j);
  }

  lemma FiledIsTied(h: Digest, known: set<Input>, pending: map<Hash, Input>, i: Input)
    requires NoCollisions(h, known) && FiledKnown(h, known, pending) && i in known && InputHash(h, i) in pending
    ensures Tied(h, pending, i) && i.prevout in PendingPoints(pending)
  {
    var j := pending[InputHash(h, i)];
    HashApart(h, known, i, j);
  }

  // ---------------------------------------------------------------- sets of out-points

  lemma PointSetAppend(p: seq<Input>, q: seq<Input>)
    ensures PointSet(p + q) == PointSet(p) + PointSet(q) && Points(p + q) == Points(p) + Points(q)
  {
    assert Points(p + q) == Points(p) + Points(q);
  }

  lemma PointSetOne(i: Input)
    ensures PointSet([i]) == {i.prevout} && PointSet([]) == {}
  {
    assert Points([i]) == [i.prevout];
  }

  lemma InPoints(ins: seq<Input>, s: set<OutPoint>)
    ensures (forall i | i in ins :: i.prevout !in s) <==> PointSet(ins) !! s
    ensures forall i | i in ins :: i.prevout in PointSet(ins)
  {
    forall i | i in ins ensures i.prevout in PointSet(ins) {
      var k :| 0 <= k < |ins| && ins[k] == i;
      assert Points(ins)[k] == i.prevout;
    }
    if forall i | i in ins :: i.prevout !in s {
      forall p | p in PointSet(ins) ensures p !in s {
        var k :| 0 <= k < |ins| && Points(ins)[k] == p;
        assert ins[k] in ins;
      }
    }
  }

  lemma DistinctSnoc(q: seq<Input>, i: Input)
    requires Distinct(Points(q))
    ensures Distinct(Points(q + [i])) <==> i.prevout !in PointSet(q)
  {
    IndexSnoc(q, i);
    if i.prevout in PointSet(q) {
      var k :| 0 <= k < |q| && Points(q)[k] == i.prevout;
      assert Points(q + [i])[k] == Points(q + [i])[|q|];
    }
  }

  lemma PendingAdd(pending: map<Hash, Input>, x: Hash, i: Input)
    requires x !in pending
    ensures PendingPoints(pending[x := i]) == PendingPoints(pending) + {i.prevout}
    ensures FiledOnce(pending) && i.prevout !in PendingPoints(pending) ==> FiledOnce(pending[x := i])
  {
    var more := pending[x := i];
    forall p ensures p in PendingPoints(more) <==> p in PendingPoints(pending) || p == i.prevout {
      if y :| y in pending && pending[y].prevout == p { assert more[y] == pending[y]; }
      if p == i.prevout { assert more[x].prevout == p; }
    }
    forall y | y in pending ensures more[y].prevout in PendingPoints(pending) { }
  }

  lemma PendingLess(pending: map<Hash, Input>, gone: set<Hash>)
    ensures var less := pending - gone;
            && PendingPoints(less) <= PendingPoints(pending) && (FiledOnce(pending) ==> FiledOnce(less))
            && forall x | x in pending && pending[x].prevout !in PendingPoints(less) :: x in gone
  {
    var less := pending - gone;
    forall x | x in pending && x !in gone ensures pending[x].prevout in PendingPoints(less) {
      assert less[x] == pending[x];
    }
  }

  /** Taking out one entry takes out its point, if it was filed once. */
  lemma PendingWithout(pending: map<Hash, Input>, x: Hash)
    requires x in pending
    ensures var less, p := pending - {x}, pending[x].prevout;
            && PendingPoints(less) + {p} == PendingPoints(pending)
            && (FiledOnce(pending) ==> FiledOnce(less) && p !in PendingPoints(less))
  {
    var less, p := pending - {x}, pending[x].prevout;
    PendingLess(pending, {x});
    forall q | q in PendingPoints(pending) ensures q == p || q in PendingPoints(less) {
      var y :| y in pending && pending[y].prevout == q;
      assert y == x || less[y] == pending[y];
    }
    if FiledOnce(pending) {
      forall y | y in less ensures less[y].prevout != p { assert less[y] == pending[y]; }
    }
  }

  // ---------------------------------------------------------------- creating

  lemma CoinsTail(coins: seq<Input>)
    requires coins != []
    ensures PointSet(coins[1..]) + {coins[0].prevout} == PointSet(coins)
    ensures Distinct(Points(coins)) ==> Distinct(Points(coins[1..])) && coins[0].prevout !in PointSet(coins[1..])
  {
    assert coins == [coins[0]] + coins[1..];
    PointSetAppend([coins[0]], coins[1..]);
    PointSetOne(coins[0]);
    var p := Points(coins);
    assert Points(coins[1..]) == p[1..|p|];
    if Distinct(p) {
      DistinctSlice(p, 1, |p|);
      forall k | 0 <= k < |coins| - 1 ensures Points(coins[1..])[k] != coins[0].prevout {
        assert p[k + 1] != p[0];
      }
    }
  }

  lemma RegisterPoints(h: Digest, known: set<Input>, pending: map<Hash, Input>, i: Input)
    requires NoCollisions(h, known) && FiledKnown(h, known, pending) && i in known
    ensures var more := RegisterOne(h, pending, i);
            && FiledKnown(h, known, more) && PendingPoints(more) == PendingPoints(pending) + {i.prevout}
            && (FiledOnce(pending) && i.prevout !in PendingPoints(pending) ==> FiledOnce(more))
            && Within(pending, more)
  {
    if InputHash(h, i) in pending {
      FiledIsTied(h, known, pending, i);
    } else {
      PendingAdd(pending, InputHash(h, i), i);
    }
  }

  /** Coins have moved from the wallet to the pending spends, and nothing else has changed. */
  ghost predicate Picked(h: Digest, known: set<Input>, c: State, a: Accounts, d: State) {
    && Inv(h, known, d, a) && Held(d) == Held(c) && (Conserved(c, a) ==> Conserved(d, a))
    && Within(c.pendingSpend, d.pendingSpend)
  }

  ghost predicate Within(less: map<Hash, Input>, more: map<Hash, Input>) {
    forall x | x in less :: x in more && more[x] == less[x]
  }

  /** One coin moves from the wallet to the pending spends. */
  lemma PickOneOk(h: Digest, known: set<Input>, c: State, a: Accounts)
    requires NoCollisions(h, known) && Inv(h, known, c, a) && c.Coins() != []
    ensures Picked(h, known, c, a, PickOne(h, c))
  {
    var coins, d := c.Coins(), PickOne(h, c);
    assert d.Coins() == coins[1..];
    CoinsTail(coins);
    RegisterPoints(h, known, c.pendingSpend, coins[0]);
    assert Held(d) == Held(c);
    if c.seeds == [] {
      assert coins == c.purse.queue;
    }
    assert InUse(h, known, d);
    assert d.purse.utxos.Keys <= PointSet(d.purse.queue);
  }

  lemma CreateOk(h: Digest, known: set<Input>, c: State, a: Accounts, n: nat)
    requires NoCollisions(h, known) && Inv(h, known, c, a) && n <= |c.Coins()|
    ensures Picked(h, known, c, a, Create(h, c, n))
  {
    CreateIsPicked(h, known, c, a, n, Create(h, c, n));
  }

  lemma {:induction false} CreateIsPicked(h: Digest, known: set<Input>, c: State, a: Accounts, n: nat, e: State)
    requires NoCollisions(h, known) && Inv(h, known, c, a) && n <= |c.Coins()| && e == Create(h, c, n)
    ensures Picked(h, known, c, a, e)
  {
    if n == 0 {
      PickedNone(h, known, c, a);
    } else {
      var d := Create(h, c, n - 1);
      CreateIsPicked(h, known, c, a, n - 1, d);
      CreateMore(h, c, n);
      PickedMore(h, known, c, a, d, e);
    }
  }

  lemma CreateMore(h: Digest, c: State, n: nat)
    requires 0 < n <= |c.Coins()|
    ensures var d := Create(h, c, n - 1); d.Coins() != [] && Create(h, c, n) == PickOne(h, d)
  {
  }

  lemma PickedNone(h: Digest, known: set<Input>, c: State, a: Accounts)
    requires Inv(h, known, c, a)
    ensures Picked(h, known, c, a, c)
  {
  }

  lemma PickedMore(h: Digest, known: set<Input>, c: State, a: Accounts, d: State, e: State)
    requires NoCollisions(h, known) && Picked(h, known, c, a, d) && d.Coins() != [] && e == PickOne(h, d)
    ensures Picked(h, known, c, a, e)
  {
    PickOneOk(h, known, d, a);
    PickedTwice(h, known, c, a, d, e);
  }

  lemma PickedTwice(h: Digest, known: set<Input>, c: State, a: Accounts, d: State, e: State)
    requires Picked(h, known, c, a, d) && Picked(h, known, d, a, e)
    ensures Picked(h, known, c, a, e)
  {
  }

  // ---------------------------------------------------------------- sending

  /** Any transaction can be sent. */
  lemma SendOk(h: Digest, known: set<Input>, c: State, a: Accounts, tx: FullTx)
    requires Inv(h, known, c, a) && tx.Sized() && forall i | i in tx.inputs :: i in known
    ensures var d := Send(h, c, tx); Inv(h, known, d, a) && (Conserved(c, a) <==> Conserved(d, a))
  {
    var d := Send(h, c, tx);
    assert d.Coins() == c.Coins();
    forall id, i | id in d.pendingTxs && i in d.pendingTxs[id].inputs ensures i in known {
      if id in c.pendingTxs { assert d.pendingTxs[id] == c.pendingTxs[id]; }
    }
  }

  // ---------------------------------------------------------------- abandoning

  lemma AddOnePoints(p: Purse, i: Input)
    requires p.utxos.Keys <= PointSet(p.queue)
    ensures var q := AddOne(p, i);
            q.utxos.Keys <= PointSet(q.queue) && PointSet(q.queue) == PointSet(p.queue) + {i.prevout}
  {
    PointSetAppend(p.queue, [i]);
    PointSetOne(i);
  }

  /** The coins once a credit has joined the queue, or not. */
  lemma AddOneCoins(seeds: seq<Input>, p: Purse, i: Input)
    requires p.utxos.Keys <= PointSet(p.queue)
    ensures var q := AddOne(p, i);
            && PointSet(seeds + q.queue) == PointSet(seeds + p.queue) + {i.prevout}
            && (forall j | j in seeds + q.queue :: j in seeds + p.queue || j == i)
            && (i.prevout !in p.utxos ==> seeds + q.queue == seeds + p.queue + [i])
  {
    var q := AddOne(p, i);
    AddOnePoints(p, i);
    PointSetAppend(seeds, p.queue);
    PointSetAppend(seeds, q.queue);
  }

  lemma ReleaseOneOk(h: Digest, known: set<Input>, c: State, a: Accounts, i: Input)
    requires NoCollisions(h, known) && Inv(h, known, c, a) && i in known
    ensures var d := ReleaseOne(h, c, i);
            Inv(h, known, d, a) && Held(d) == Held(c) && (Conserved(c, a) ==> Conserved(d, a))
  {
    var x := InputHash(h, i);
    if x in c.pendingSpend && !Used(c.pendingTxs, i) {
      var d := ReleaseOne(h, c, i);
      FiledIsTied(h, known, c.pendingSpend, i);
      PendingWithout(c.pendingSpend, x);
      AddOneCoins(c.seeds, c.purse, i);
      assert Held(d) == Held(c);
      AddOnePoints(c.purse, i);
      if Conserved(c, a) {
        NotHeldYet(c, a, i);
        DistinctSnoc(c.Coins(), i);
      }
    }
  }

  /** What is tied up is not in the wallet. */
  lemma NotHeldYet(c: State, a: Accounts, i: Input)
    requires Conserved(c, a) && i.prevout in PendingPoints(c.pendingSpend)
    ensures i.prevout !in PointSet(c.Coins()) && i.prevout !in c.purse.utxos
  {
    PointSetAppend(c.seeds, c.purse.queue);
  }

  lemma {:induction false} ReleaseOk(h: Digest, known: set<Input>, c: State, a: Accounts, ins: seq<Input>)
    requires NoCollisions(h, known) && Inv(h, known, c, a) && forall i | i in ins :: i in known
    ensures var d := Release(h, c, ins);
            && Inv(h, known, d, a) && d.pendingTxs == c.pendingTxs && Held(d) == Held(c)
            && (Conserved(c, a) ==> Conserved(d, a))
  {
    if ins != [] {
      var n := |ins| - 1;
      ReleaseOk(h, known, c, a, ins[..n]);
      assert ins[n] in ins;
      ReleaseOneOk(h, known, Release(h, c, ins[..n]), a, ins[n]);
    }
  }

  lemma AbandonOk(h: Digest, known: set<Input>, c: State, a: Accounts, id: Hash)
    requires NoCollisions(h, known) && Inv(h, known, c, a)
    ensures var d := Abandon(h, c, id);
            Inv(h, known, d, a) && Held(d) == Held(c) && (Conserved(c, a) ==> Conserved(d, a))
  {
    if id in c.pendingTxs {
      var d := c.(pendingTxs := c.pendingTxs - {id});
      assert d.Coins() == c.Coins();
      ReleaseOk(h, known, d, a, c.pendingTxs[id].inputs);
    }
  }

  /** Which inputs are released: those of the list that nothing else needs, and each only once. */
  lemma {:induction false} ReleasedExactly(h: Digest, known: set<Input>, c: State, a: Accounts, ins: seq<Input>,
                                           i: Input)
    requires NoCollisions(h, known) && Inv(h, known, c, a) && (forall j | j in ins :: j in known) && i in known
    requires Conserved(c, a) && Tied(h, c.pendingSpend, i)
    ensures var d := Release(h, c, ins);
            && (Tied(h, d.pendingSpend, i) <==> !(i in ins && !Used(c.pendingTxs, i)))
            && (i.prevout in PointSet(d.Coins()) <==> i in ins && !Used(c.pendingTxs, i))
  {
    if ins != [] {
      var n := |ins| - 1;
      var j := ins[n];
      assert ins == ins[..n] + [j];
      ReleasedExactly(h, known, c, a, ins[..n], i);
      ReleaseOk(h, known, c, a, ins[..n]);
      ReleaseOneExactly(h, known, Release(h, c, ins[..n]), a, j, i);
    } else {
      assert i.prevout in PendingPoints(c.pendingSpend);
    }
  }

  lemma ReleaseOneExactly(h: Digest, known: set<Input>, d: State, a: Accounts, j: Input, i: Input)
    requires NoCollisions(h, known) && Inv(h, known, d, a) && Conserved(d, a) && j in known && i in known
    requires Tied(h, d.pendingSpend, i) <==> i.prevout !in PointSet(d.Coins())
    ensures var e := ReleaseOne(h, d, j);
            && (Tied(h, e.pendingSpend, i) <==> Tied(h, d.pendingSpend, i) && !(i == j && !Used(d.pendingTxs, j)))
            && (Tied(h, e.pendingSpend, i) <==> i.prevout !in PointSet(e.Coins()))
  {
    var x := InputHash(h, j);
    if x in d.pendingSpend && !Used(d.pendingTxs, j) {
      FiledIsTied(h, known, d.pendingSpend, j);
      AddOneCoins(d.seeds, d.purse, j);
      if i != j && Tied(h, d.pendingSpend, i) {
        assert i.prevout != j.prevout;
      }
    }
  }

  /** Abandoning gives an input back exactly when the transaction had it and no other pending transaction
      does; from then on it is not tied up, so it cannot be given back again. */
  lemma AbandonReleases(h: Digest, known: set<Input>, c: State, a: Accounts, id: Hash, i: Input)
    requires NoCollisions(h, known) && Inv(h, known, c, a) && Conserved(c, a) && id in c.pendingTxs && i in known
    requires Tied(h, c.pendingSpend, i)
    ensures var d := Abandon(h, c, id);
            var released := i in c.pendingTxs[id].inputs && !Used(c.pendingTxs - {id}, i);
            && (i.prevout in PointSet(d.Coins()) <==> released)
            && (Tied(h, d.pendingSpend, i) <==> !released)
  {
    var d := c.(pendingTxs := c.pendingTxs - {id});
    assert d.Coins() == c.Coins();
    ReleasedExactly(h, known, d, a, c.pendingTxs[id].inputs, i);
  }

  // ---------------------------------------------------------------- confirming

  lemma {:induction false} ForgetIs(h: Digest, pending: map<Hash, Input>, ins: seq<Input>)
    ensures Forget(h, pending, ins) == pending - (set i | i in ins :: InputHash(h, i))
  {
    if ins != [] {
      var n := |ins| - 1;
      ForgetIs(h, pending, ins[..n]);
      assert ins == ins[..n] + [ins[n]];
    }
  }

  /** Only points of the inputs are forgotten. */
  lemma ForgetPoints(h: Digest, known: set<Input>, pending: map<Hash, Input>, ins: seq<Input>)
    requires NoCollisions(h, known) && FiledKnown(h, known, pending) && forall i | i in ins :: i in known
    ensures var less := Forget(h, pending, ins);
            && Within(less, pending) && FiledKnown(h, known, less)
            && PendingPoints(pending) - PointSet(ins) <= PendingPoints(less) <= PendingPoints(pending)
            && (FiledOnce(pending) ==> FiledOnce(less))
            && (forall x | x in pending && x !in less :: pending[x].prevout in PointSet(ins))
  {
    ForgetIs(h, pending, ins);
    var gone := set i | i in ins :: InputHash(h, i);
    PendingLess(pending, gone);
    InPoints(ins, {});
    forall x | x in pending && x in gone ensures pending[x].prevout in PointSet(ins) {
      var i :| i in ins && InputHash(h, i) == x;
      FiledIsTied(h, known, pending, i);
    }
  }

  /** What is tied up and an input is forgotten. */
  lemma ForgetTied(h: Digest, known: set<Input>, pending: map<Hash, Input>, ins: seq<Input>, i: Input)
    requires NoCollisions(h, known) && FiledKnown(h, known, pending) && FiledOnce(pending)
    requires (forall j | j in ins :: j in known) && i in ins && Tied(h, pending, i)
    ensures i.prevout !in PendingPoints(Forget(h, pending, ins))
  {
    ForgetIs(h, pending, ins);
    ForgetPoints(h, known, pending, ins);
    var less := Forget(h, pending, ins);
    forall x | x in less ensures less[x].prevout != i.prevout {
      assert x != InputHash(h, i);
    }
  }

  lemma {:induction false} AddPoints(seeds: seq<Input>, p: Purse, credits: seq<Input>)
    requires p.utxos.Keys <= PointSet(p.queue)
    ensures var q := Add(p, credits);
            && q.utxos.Keys <= PointSet(q.queue)
            && PointSet(q.queue) == PointSet(p.queue) + PointSet(credits)
            && PointSet(seeds + q.queue) == PointSet(seeds + p.queue) + PointSet(credits)
            && (forall j | j in seeds + q.queue :: j in seeds + p.queue || j in credits)
  {
    if credits != [] {
      var n := |credits| - 1;
      assert credits == credits[..n] + [credits[n]];
      AddPoints(seeds, p, credits[..n]);
      AddOnePoints(Add(p, credits[..n]), credits[n]);
      AddOneCoins(seeds, Add(p, credits[..n]), credits[n]);
      PointSetAppend(credits[..n], [credits[n]]);
      PointSetOne(credits[n]);
    } else {
      assert PointSet([]) == {};
    }
  }

  /** Crediting leaves out-points distinct exactly when no credit is a seed. */
  lemma {:induction false} AddDistinct(seeds: seq<Input>, p: Purse, credits: seq<Input>)
    requires p.utxos.Keys == PointSet(p.queue) && Distinct(Points(seeds + p.queue))
    ensures var q := Add(p, credits);
            && q.utxos.Keys == PointSet(q.queue)
            && (Distinct(Points(seeds + q.queue)) <==> PointSet(credits) !! PointSet(seeds))
  {
    if credits != [] {
      var n := |credits| - 1;
      assert credits == credits[..n] + [credits[n]];
      AddDistinct(seeds, p, credits[..n]);
      PointSetAppend(credits[..n], [credits[n]]);
      PointSetOne(credits[n]);
      AddOneDistinct(seeds, Add(p, credits[..n]), credits[n]);
    } else {
      assert PointSet([]) == {};
    }
  }

  lemma AddOneDistinct(seeds: seq<Input>, p: Purse, i: Input)
    requires p.utxos.Keys == PointSet(p.queue)
    ensures var q := AddOne(p, i);
            && q.utxos.Keys == PointSet(q.queue)
            && (Distinct(Points(seeds + q.queue)) <==>
                  Distinct(Points(seeds + p.queue)) && i.prevout !in PointSet(seeds))
  {
    var q := AddOne(p, i);
    AddOnePoints(p, i);
    PointSetAppend(seeds, p.queue);
    AddOneCoins(seeds, p, i);
    if i.prevout in p.utxos {
      if Distinct(Points(seeds + p.queue)) { SeedsApart(seeds, p.queue); }
    } else {
      if Distinct(Points(seeds + p.queue)) {
        DistinctSnoc(seeds + p.queue, i);
      } else {
        LessDistinct(seeds + p.queue, i);
      }
    }
  }

  lemma SeedsApart(seeds: seq<Input>, queue: seq<Input>)
    requires Distinct(Points(seeds + queue))
    ensures PointSet(seeds) !! PointSet(queue)
  {
    var p := Points(seeds + queue);
    PointSetAppend(seeds, queue);
    forall i, j | 0 <= i < |seeds| && 0 <= j < |queue| ensures Points(seeds)[i] != Points(queue)[j] {
      assert p[i] != p[|seeds| + j];
    }
  }

  lemma LessDistinct(q: seq<Input>, i: Input)
    ensures Distinct(Points(q + [i])) ==> Distinct(Points(q))
  {
    IndexSnoc(q, i);
    var p := Points(q + [i]);
    if Distinct(p) {
      DistinctSlice(p, 0, |q|);
      assert p[0..|q|] == Points(q);
    }
  }

  /** What is on record after a confirmation. */
  function Settle(h: Digest, c: State, a: Accounts, id: Hash, keys: set<Hash>): Accounts
    requires id in c.pendingTxs ==> c.pendingTxs[id].Sized()
  {
    if id !in c.pendingTxs then a
    else
      var tx := c.pendingTxs[id];
      Accounts(a.credited + PaidBack(h, keys, tx), a.spent + PointSet(tx.inputs), a.confirmed + {id})
  }

  lemma OwnPoints(h: Digest, keys: set<Hash>, tx: FullTx)
    requires tx.Sized()
    ensures PointSet(Own(h, keys, tx)) == PaidBack(h, keys, tx) && TxIds(PaidBack(h, keys, tx)) <= {TxId(h, tx)}
  {
    OwnIsPaidBack(h, keys, tx);
  }

  /** Any pending transaction can be confirmed, in whatever order and however often. */
  lemma ConfirmOk(h: Digest, known: set<Input>, c: State, a: Accounts, id: Hash, keys: set<Hash>)
    requires NoCollisions(h, known) && Inv(h, known, c, a)
    requires id in c.pendingTxs ==> forall i | i in Own(h, keys, c.pendingTxs[id]) :: i in known
    ensures Inv(h, known, Confirm(h, c, id, keys), Settle(h, c, a, id, keys))
  {
    if id in c.pendingTxs {
      var tx, d, b := c.pendingTxs[id], Confirm(h, c, id, keys), Settle(h, c, a, id, keys);
      var own := Own(h, keys, tx);
      HeldAfter(h, known, c, a, id, keys);
      ForgetPoints(h, known, c.pendingSpend, tx.inputs);
      AddPoints(c.seeds, c.purse, own);
      DebitIs(Add(c.purse, own).utxos, tx.inputs);
      OwnPoints(h, keys, tx);
      assert b.credited - b.spent <= Held(d) <= b.credited;
      assert TxIds(b.credited) <= b.confirmed by { TxIdsUnion(a.credited, PaidBack(h, keys, tx)); }
    }
  }

  lemma TxIdsUnion(p: set<OutPoint>, q: set<OutPoint>)
    ensures TxIds(p + q) == TxIds(p) + TxIds(q)
  {
  }

  /** What the client holds after a confirmation: its coins and its own outputs, and what is still tied up. */
  lemma HeldAfter(h: Digest, known: set<Input>, c: State, a: Accounts, id: Hash, keys: set<Hash>)
    requires NoCollisions(h, known) && Inv(h, known, c, a) && id in c.pendingTxs
    ensures var tx, d := c.pendingTxs[id], Confirm(h, c, id, keys);
            var left := PendingPoints(Forget(h, c.pendingSpend, tx.inputs));
            && PointSet(d.Coins()) == PointSet(c.Coins()) + PaidBack(h, keys, tx)
            && Held(d) == PointSet(c.Coins()) + PaidBack(h, keys, tx) + left
            && PendingPoints(c.pendingSpend) - PointSet(tx.inputs) <= left <= PendingPoints(c.pendingSpend)
  {
    var tx := c.pendingTxs[id];
    OwnPoints(h, keys, tx);
    AddPoints(c.seeds, c.purse, Own(h, keys, tx));
    ForgetPoints(h, known, c.pendingSpend, tx.inputs);
  }

  /** None of the inputs is in the wallet or stays tied up, and none of the outputs that are credited is an
      unspent seed, tied up, or spent. */
  ghost predicate Meets(h: Digest, c: State, a: Accounts, id: Hash, keys: set<Hash>)
    requires id in c.pendingTxs ==> c.pendingTxs[id].Sized()
  {
    id in c.pendingTxs ==>
      var tx := c.pendingTxs[id];
      var ins, own := PointSet(tx.inputs), PaidBack(h, keys, tx);
      var left := PendingPoints(Forget(h, c.pendingSpend, tx.inputs));
      ins !! PointSet(c.Coins()) + left && own !! PointSet(c.seeds) + left + a.spent + ins
  }

  lemma MeetsSets(seeds: set<OutPoint>, queue: set<OutPoint>, pending: set<OutPoint>, left: set<OutPoint>,
                  spent: set<OutPoint>, ins: set<OutPoint>, own: set<OutPoint>)
    requires seeds + queue !! pending && left <= pending && spent !! seeds + queue + pending
    ensures (own !! seeds && ins !! queue + own && seeds + queue + own !! left
             && spent + ins !! seeds + queue + own + left) <==>
            (ins !! seeds + queue + left && own !! seeds + left + spent + ins)
  {
  }

  /** A confirmation keeps funds conserved exactly when it meets the condition. */
  lemma ConfirmIff(h: Digest, known: set<Input>, c: State, a: Accounts, id: Hash, keys: set<Hash>)
    requires NoCollisions(h, known) && Inv(h, known, c, a) && Conserved(c, a)
    ensures Conserved(Confirm(h, c, id, keys), Settle(h, c, a, id, keys)) <==> Meets(h, c, a, id, keys)
  {
    if id in c.pendingTxs {
      var tx, d, b := c.pendingTxs[id], Confirm(h, c, id, keys), Settle(h, c, a, id, keys);
      var own, ins := Own(h, keys, tx), PointSet(tx.inputs);
      HeldAfter(h, known, c, a, id, keys);
      OwnPoints(h, keys, tx);
      ForgetPoints(h, known, c.pendingSpend, tx.inputs);
      AddDistinct(c.seeds, c.purse, own);
      AddPoints(c.seeds, c.purse, own);
      PointSetAppend(c.seeds, c.purse.queue);
      var q := Add(c.purse, own);
      StruckSet(q, tx.inputs);
      MeetsSets(PointSet(c.seeds), PointSet(c.purse.queue), PendingPoints(c.pendingSpend),
                PendingPoints(d.pendingSpend), a.spent, ins, PointSet(own));
      assert d.Coins() == c.seeds + q.queue;
    }
  }

  lemma StruckSet(p: Purse, debits: seq<Input>)
    requires p.utxos.Keys == PointSet(p.queue)
    ensures Strike(p, debits).utxos.Keys == PointSet(p.queue) <==> PointSet(debits) !! PointSet(p.queue)
  {
    DebitIs(p.utxos, debits);
    DebitPoints(debits);
    assert Strike(p, debits).utxos.Keys == PointSet(p.queue) - PointSet(debits);
  }

  lemma DebitPoints(debits: seq<Input>)
    ensures (set d | d in debits :: d.prevout) == PointSet(debits)
  {
    InPoints(debits, {});
    forall p | p in PointSet(debits) ensures exists d :: d in debits && d.prevout == p {
      var k :| 0 <= k < |debits| && Points(debits)[k] == p;
      assert debits[k] in debits;
    }
  }

  // ---------------------------------------------------------------- whole runs

  datatype Event =
    | Creating(count: nat)
    | Sending(tx: FullTx)
    | Confirming(id: Hash, keys: set<Hash>)
    | Abandoning(id: Hash)

  /** Any transaction over known inputs can be sent, and any pending one confirmed at any time. */
  ghost predicate Allowed(h: Digest, known: set<Input>, c: State, e: Event) {
    match e
    case Creating(n) => n <= |c.Coins()|
    case Sending(tx) => tx.Sized() && forall i | i in tx.inputs :: i in known
    case Confirming(id, keys) =>
      id in c.pendingTxs ==>
        c.pendingTxs[id].Sized() && forall i | i in Own(h, keys, c.pendingTxs[id]) :: i in known
    case Abandoning(_) => true
  }

  ghost function Next(h: Digest, known: set<Input>, c: State, a: Accounts, e: Event): (State, Accounts)
    requires Allowed(h, known, c, e)
  {
    match e
    case Creating(n) => (Create(h, c, n), a)
    case Sending(tx) => (Send(h, c, tx), a)
    case Confirming(id, keys) => (Confirm(h, c, id, keys), Settle(h, c, a, id, keys))
    case Abandoning(id) => (Abandon(h, c, id), a)
  }

  /** A client whose wallet is in order and that has nothing pending. */
  ghost predicate Starting(known: set<Input>, c: State) {
    && c.pendingTxs == map[] && c.pendingSpend == map[]
    && InStep(c.purse) && Distinct(Points(c.Coins())) && forall i | i in c.Coins() :: i in known
  }

  ghost function Opening(c: State): Accounts {
    Accounts(PointSet(c.Coins()), {}, TxIds(PointSet(c.Coins())))
  }

  /** The state after any list of events; one that is not allowed does not happen. */
  ghost function Run(h: Digest, known: set<Input>, start: State, events: seq<Event>): (State, Accounts) {
    if events == [] then (start, Opening(start))
    else
      var n := |events| - 1;
      var (c, a) := Run(h, known, start, events[..n]);
      if Allowed(h, known, c, events[n]) then Next(h, known, c, a, events[n]) else (c, a)
  }

  ghost predicate MeetsEvent(h: Digest, known: set<Input>, c: State, a: Accounts, e: Event) {
    e.Confirming? && Allowed(h, known, c, e) ==> Meets(h, c, a, e.id, e.keys)
  }

  /** Every confirmation of the run meets the condition. */
  ghost predicate AllMeet(h: Digest, known: set<Input>, start: State, events: seq<Event>) {
    events == [] ||
    var n := |events| - 1;
    var (c, a) := Run(h, known, start, events[..n]);
    AllMeet(h, known, start, events[..n]) && MeetsEvent(h, known, c, a, events[n])
  }

  ghost predicate ConservedAfter(h: Digest, known: set<Input>, start: State, events: seq<Event>) {
    var (c, a) := Run(h, known, start, events); Conserved(c, a)
  }

  ghost predicate ConservedThroughout(h: Digest, known: set<Input>, start: State, events: seq<Event>) {
    forall k: nat | k <= |events| :: ConservedAfter(h, known, start, events[..k])
  }

  lemma NextOk(h: Digest, known: set<Input>, c: State, a: Accounts, e: Event)
    requires NoCollisions(h, known) && Inv(h, known, c, a) && Allowed(h, known, c, e)
    ensures var (d, b) := Next(h, known, c, a, e);
            Inv(h, known, d, b) && a.spent <= b.spent && a.credited <= b.credited && a.confirmed <= b.confirmed
  {
    match e
    case Creating(n) => CreateOk(h, known, c, a, n);
    case Sending(tx) => SendOk(h, known, c, a, tx);
    case Confirming(id, keys) => ConfirmOk(h, known, c, a, id, keys);
    case Abandoning(id) => AbandonOk(h, known, c, a, id);
  }

  lemma NextIff(h: Digest, known: set<Input>, c: State, a: Accounts, e: Event)
    requires NoCollisions(h, known) && Inv(h, known, c, a) && Allowed(h, known, c, e) && Conserved(c, a)
    ensures var (d, b) := Next(h, known, c, a, e); Conserved(d, b) <==> MeetsEvent(h, known, c, a, e)
  {
    match e
    case Creating(n) => CreateOk(h, known, c, a, n);
    case Sending(tx) => SendOk(h, known, c, a, tx);
    case Confirming(id, keys) => ConfirmIff(h, known, c, a, id, keys);
    case Abandoning(id) => AbandonOk(h, known, c, a, id);
  }

  lemma StartOk(h: Digest, known: set<Input>, start: State)
    requires Starting(known, start)
    ensures Inv(h, known, start, Opening(start)) && Conserved(start, Opening(start))
  {
    assert PendingPoints(map[]) == {};
    IndexKeys(start.purse.queue);
    assert start.purse.utxos.Keys == PointSet(start.purse.queue);
  }

  /** In every run of creating, sending, confirming and abandoning, whatever is sent, and confirmed in whatever
      order and however often: nothing credited and unspent is lost, and nothing is made up. */
  lemma {:induction false} NothingLost(h: Digest, known: set<Input>, start: State, events: seq<Event>)
    requires NoCollisions(h, known) && Starting(known, start)
    ensures var (c, a) := Run(h, known, start, events); Inv(h, known, c, a)
  {
    if events == [] {
      StartOk(h, known, start);
    } else {
      var n := |events| - 1;
      NothingLost(h, known, start, events[..n]);
      var (c, a) := Run(h, known, start, events[..n]);
      if Allowed(h, known, c, events[n]) { NextOk(h, known, c, a, events[n]); }
    }
  }

  lemma ThroughoutSnoc(h: Digest, known: set<Input>, start: State, events: seq<Event>)
    requires events != []
    ensures ConservedThroughout(h, known, start, events) <==>
            ConservedThroughout(h, known, start, events[..|events| - 1]) && ConservedAfter(h, known, start, events)
  {
    var n := |events| - 1;
    assert events[..|events|] == events;
    forall k: nat | k <= n ensures events[..n][..k] == events[..k] { }
    if ConservedThroughout(h, known, start, events) {
      forall k: nat | k <= n ensures ConservedAfter(h, known, start, events[..n][..k]) {
        assert ConservedAfter(h, known, start, events[..k]);
      }
    }
    if ConservedThroughout(h, known, start, events[..n]) && ConservedAfter(h, known, start, events) {
      forall k: nat | k <= |events| ensures ConservedAfter(h, known, start, events[..k]) {
        if k <= n { assert ConservedAfter(h, known, start, events[..n][..k]); }
      }
    }
  }

  /** Everything credited is in the wallet, tied up or spent, in exactly one of them, at every point of a run,
      if and only if every confirmation in it meets the condition. */
  lemma {:induction false} FundsConserved(h: Digest, known: set<Input>, start: State, events: seq<Event>)
    requires NoCollisions(h, known) && Starting(known, start)
    ensures ConservedThroughout(h, known, start, events) <==> AllMeet(h, known, start, events)
    ensures AllMeet(h, known, start, events) ==> ConservedAfter(h, known, start, events)
  {
    if events == [] {
      StartOk(h, known, start);
      assert ConservedAfter(h, known, start, []);
      assert forall k: nat | k <= |events| :: events[..k] == [];
    } else {
      var n := |events| - 1;
      FundsConserved(h, known, start, events[..n]);
      ThroughoutSnoc(h, known, start, events);
      LastIff(h, known, start, events);
    }
  }

  lemma LastIff(h: Digest, known: set<Input>, start: State, events: seq<Event>)
    requires NoCollisions(h, known) && Starting(known, start) && events != []
    requires ConservedThroughout(h, known, start, events[..|events| - 1]) ==>
             ConservedAfter(h, known, start, events[..|events| - 1])
    ensures var n := |events| - 1;
            var (c, a) := Run(h, known, start, events[..n]);
            ConservedThroughout(h, known, start, events[..n]) ==>
              (ConservedAfter(h, known, start, events) <==> MeetsEvent(h, known, c, a, events[n]))
  {
    var n := |events| - 1;
    var (c, a) := Run(h, known, start, events[..n]);
    NothingLost(h, known, start, events[..n]);
    if ConservedThroughout(h, known, start, events[..n]) && Allowed(h, known, c, events[n]) {
      NextIff(h, known, c, a, events[n]);
    }
  }

  /** What a confirmed transaction has spent never comes back to the wallet or to the pending spends. */
  lemma {:induction false} SpentForGood(h: Digest, known: set<Input>, start: State, events: seq<Event>,
                                        more: seq<Event>)
    requires NoCollisions(h, known) && Starting(known, start) && AllMeet(h, known, start, events + more)
    ensures var (c, a) := Run(h, known, start, events);
            var (d, b) := Run(h, known, start, events + more);
            a.spent <= b.spent && a.spent !! Held(d)
    decreases |more|
  {
    FundsConserved(h, known, start, events + more);
    if more == [] {
      assert events + more == events;
    } else {
      var n := |more| - 1;
      var all := events + more;
      assert all[..|all| - 1] == events + more[..n];
      SpentForGood(h, known, start, events, more[..n]);
      NothingLost(h, known, start, events + more[..n]);
      var (c, a) := Run(h, known, start, events + more[..n]);
      if Allowed(h, known, c, all[|all| - 1]) { NextOk(h, known, c, a, all[|all| - 1]); }
    }
  }

  // ---------------------------------------------------------------- which sends are safe

  /** Every input of a pending transaction is tied up, or has been spent. */
  ghost predicate Backed(h: Digest, pending: map<Hash, Input>, spent: set<OutPoint>, txs: map<Hash, FullTx>) {
    forall id, i | id in txs && i in txs[id].inputs :: Tied(h, pending, i) || i.prevout in spent
  }

  /** No pending transaction counts on something in the wallet or has been confirmed before, and only what was
      credited has been spent. */
  ghost predicate Orderly(h: Digest, c: State, a: Accounts) {
    && Backed(h, c.pendingSpend, a.spent, c.pendingTxs)
    && a.spent <= a.credited && forall id | id in c.pendingTxs :: id !in a.confirmed
  }

  /** A transaction that the client does not know is sent only if it has not been confirmed before and each of
      its inputs is tied up or already spent. */
  ghost predicate CarefulEvent(h: Digest, c: State, a: Accounts, e: Event) {
    e.Sending? && e.tx.Sized() && TxId(h, e.tx) !in c.pendingTxs ==>
      && TxId(h, e.tx) !in a.confirmed
      && forall i | i in e.tx.inputs :: Tied(h, c.pendingSpend, i) || i.prevout in a.spent
  }

  ghost predicate Careful(h: Digest, known: set<Input>, start: State, events: seq<Event>) {
    events == [] ||
    var n := |events| - 1;
    var (c, a) := Run(h, known, start, events[..n]);
    Careful(h, known, start, events[..n]) && CarefulEvent(h, c, a, events[n])
  }

  lemma BackedMore(h: Digest, pending: map<Hash, Input>, more: map<Hash, Input>, spent: set<OutPoint>,
                   txs: map<Hash, FullTx>)
    requires Backed(h, pending, spent, txs) && Within(pending, more)
    ensures Backed(h, more, spent, txs)
  {
    forall id, i | id in txs && i in txs[id].inputs ensures Tied(h, more, i) || i.prevout in spent {
      assert Tied(h, pending, i) || i.prevout in spent;
    }
  }

  lemma SendOrderly(h: Digest, c: State, a: Accounts, tx: FullTx)
    requires tx.Sized() && Orderly(h, c, a) && CarefulEvent(h, c, a, Sending(tx))
    ensures Orderly(h, Send(h, c, tx), a)
  {
    var d := Send(h, c, tx);
    forall id, i | id in d.pendingTxs && i in d.pendingTxs[id].inputs
      ensures Tied(h, d.pendingSpend, i) || i.prevout in a.spent
    {
      if id in c.pendingTxs { assert d.pendingTxs[id] == c.pendingTxs[id]; }
    }
  }

  /** Nothing that a pending transaction needs is released. */
  lemma ReleaseOneBacked(h: Digest, known: set<Input>, c: State, spent: set<OutPoint>, i: Input)
    requires NoCollisions(h, known) && InUse(h, known, c) && i in known
    requires Backed(h, c.pendingSpend, spent, c.pendingTxs)
    ensures Backed(h, ReleaseOne(h, c, i).pendingSpend, spent, c.pendingTxs)
  {
    var x := InputHash(h, i);
    if x in c.pendingSpend && !Used(c.pendingTxs, i) {
      var less := c.pendingSpend - {x};
      forall id, j | id in c.pendingTxs && j in c.pendingTxs[id].inputs
        ensures Tied(h, less, j) || j.prevout in spent
      {
        assert j != i && j in known;
        if InputHash(h, j) == x { HashApart(h, known, i, j); }
        assert Tied(h, c.pendingSpend, j) || j.prevout in spent;
      }
    }
  }

  lemma {:induction false} ReleaseBacked(h: Digest, known: set<Input>, c: State, a: Accounts, ins: seq<Input>)
    requires NoCollisions(h, known) && Inv(h, known, c, a) && (forall i | i in ins :: i in known)
    requires Backed(h, c.pendingSpend, a.spent, c.pendingTxs)
    ensures Backed(h, Release(h, c, ins).pendingSpend, a.spent, c.pendingTxs)
  {
    if ins != [] {
      var n := |ins| - 1;
      ReleaseBacked(h, known, c, a, ins[..n]);
      ReleaseOk(h, known, c, a, ins[..n]);
      assert ins[n] in ins;
      ReleaseOneBacked(h, known, Release(h, c, ins[..n]), a.spent, ins[n]);
    }
  }

  lemma AbandonOrderly(h: Digest, known: set<Input>, c: State, a: Accounts, id: Hash)
    requires NoCollisions(h, known) && Inv(h, known, c, a) && Orderly(h, c, a)
    ensures Orderly(h, Abandon(h, c, id), a)
  {
    if id in c.pendingTxs {
      var d := c.(pendingTxs := c.pendingTxs - {id});
      assert d.Coins() == c.Coins();
      ReleaseBacked(h, known, d, a, c.pendingTxs[id].inputs);
      ReleaseOk(h, known, d, a, c.pendingTxs[id].inputs);
    }
  }

  /** The inputs of an orderly pending transaction were credited, are not in the wallet, and do not stay tied
      up. */
  lemma InputsClear(h: Digest, known: set<Input>, c: State, a: Accounts, id: Hash)
    requires NoCollisions(h, known) && Inv(h, known, c, a) && Conserved(c, a) && Orderly(h, c, a)
    requires id in c.pendingTxs
    ensures var ins := c.pendingTxs[id].inputs;
            && PointSet(ins) <= a.credited
            && PointSet(ins) !! PointSet(c.Coins()) + PendingPoints(Forget(h, c.pendingSpend, ins))
  {
    var ins := c.pendingTxs[id].inputs;
    var left := PendingPoints(Forget(h, c.pendingSpend, ins));
    ForgetPoints(h, known, c.pendingSpend, ins);
    forall i | i in ins ensures i.prevout in a.credited && i.prevout !in PointSet(c.Coins()) + left {
      if Tied(h, c.pendingSpend, i) {
        assert i.prevout in PendingPoints(c.pendingSpend);
        ForgetTied(h, known, c.pendingSpend, ins, i);
      }
    }
    InPoints(ins, PointSet(c.Coins()) + left);
    forall p | p in PointSet(ins) ensures p in a.credited {
      var k :| 0 <= k < |ins| && Points(ins)[k] == p;
      assert ins[k] in ins;
    }
  }

  lemma NotOwn(points: set<OutPoint>, own: set<OutPoint>, confirmed: set<Hash>, id: Hash)
    requires TxIds(points) <= confirmed && id !in confirmed && TxIds(own) <= {id}
    ensures own !! points
  {
    forall p | p in own ensures p !in points {
      assert p.txId in TxIds(own);
      assert p in points ==> p.txId in TxIds(points);
    }
  }

  lemma ConfirmOrderly(h: Digest, known: set<Input>, c: State, a: Accounts, id: Hash, keys: set<Hash>)
    requires NoCollisions(h, known) && Inv(h, known, c, a) && Conserved(c, a) && Orderly(h, c, a)
    ensures Meets(h, c, a, id, keys) && Orderly(h, Confirm(h, c, id, keys), Settle(h, c, a, id, keys))
  {
    if id in c.pendingTxs {
      var tx := c.pendingTxs[id];
      InputsClear(h, known, c, a, id);
      ForgetPoints(h, known, c.pendingSpend, tx.inputs);
      OwnPoints(h, keys, tx);
      NotOwn(a.credited, PaidBack(h, keys, tx), a.confirmed, id);
      PointSetAppend(c.seeds, c.purse.queue);
      ConfirmBacked(h, c.pendingSpend, Forget(h, c.pendingSpend, tx.inputs), a.spent, tx.inputs, c.pendingTxs, id);
    }
  }

  lemma ConfirmBacked(h: Digest, pending: map<Hash, Input>, less: map<Hash, Input>, spent: set<OutPoint>,
                      ins: seq<Input>, txs: map<Hash, FullTx>, id: Hash)
    requires Backed(h, pending, spent, txs) && Within(less, pending)
    requires forall x | x in pending && x !in less :: pending[x].prevout in PointSet(ins)
    ensures Backed(h, less, spent + PointSet(ins), txs - {id})
  {
    forall id', i | id' in txs - {id} && i in (txs - {id})[id'].inputs
      ensures Tied(h, less, i) || i.prevout in spent + PointSet(ins)
    {
      assert i in txs[id'].inputs;
      assert Tied(h, pending, i) || i.prevout in spent;
    }
  }

  lemma NextOrderly(h: Digest, known: set<Input>, c: State, a: Accounts, e: Event)
    requires NoCollisions(h, known) && Inv(h, known, c, a) && Conserved(c, a) && Allowed(h, known, c, e)
    requires Orderly(h, c, a) && CarefulEvent(h, c, a, e)
    ensures var (d, b) := Next(h, known, c, a, e); MeetsEvent(h, known, c, a, e) && Orderly(h, d, b)
  {
    match e
    case Creating(n) =>
      CreateOk(h, known, c, a, n);
      BackedMore(h, c.pendingSpend, Create(h, c, n).pendingSpend, a.spent, c.pendingTxs);
    case Sending(tx) => SendOrderly(h, c, a, tx);
    case Confirming(id, keys) => ConfirmOrderly(h, known, c, a, id, keys);
    case Abandoning(id) => AbandonOrderly(h, known, c, a, id);
  }

  /** If transactions are sent only before they are confirmed, and only while their inputs are tied up or spent,
      funds are conserved throughout, in whatever order reports come and however often. */
  lemma {:induction false} CarefulIsConserved(h: Digest, known: set<Input>, start: State, events: seq<Event>)
    requires NoCollisions(h, known) && Starting(known, start) && Careful(h, known, start, events)
    ensures AllMeet(h, known, start, events) && ConservedThroughout(h, known, start, events)
    ensures var (c, a) := Run(h, known, start, events); Orderly(h, c, a)
  {
    if events != [] {
      var n := |events| - 1;
      CarefulIsConserved(h, known, start, events[..n]);
      FundsConserved(h, known, start, events[..n]);
      NothingLost(h, known, start, events[..n]);
      var (c, a) := Run(h, known, start, events[..n]);
      if Allowed(h, known, c, events[n]) { NextOrderly(h, known, c, a, events[n]); }
    }
    FundsConserved(h, known, start, events);
  }

  /** The input is one of the client's coins: it was credited, and carries the data of the coin. */
  ghost predicate Genuine(c: State, a: Accounts, i: Input) {
    && i.prevout in a.credited
    && forall x | x in c.pendingSpend && c.pendingSpend[x].prevout == i.prevout :: c.pendingSpend[x] == i
  }

  /** What to look at before sending a transaction over the client's coins that it does not know: if it is sent
      and then confirmed, funds stay conserved exactly when each input is found among the pending spends or has
      been spent, and no output that will be credited is an unspent seed, tied up, or spent. The latter holds of
      a transaction that has not been confirmed before, if only credited coins have been spent. */
  lemma SendConfirmIff(h: Digest, known: set<Input>, c: State, a: Accounts, tx: FullTx, keys: set<Hash>)
    requires NoCollisions(h, known) && Inv(h, known, c, a) && Conserved(c, a)
    requires tx.Sized() && TxId(h, tx) !in c.pendingTxs && forall i | i in tx.inputs :: i in known && Genuine(c, a, i)
    ensures var d, id, own := Send(h, c, tx), TxId(h, tx), PaidBack(h, keys, tx);
            var free := own !! PointSet(c.seeds) + PendingPoints(c.pendingSpend) + a.spent;
            && (Conserved(Confirm(h, d, id, keys), Settle(h, d, a, id, keys)) <==>
                  free && forall i | i in tx.inputs :: InputHash(h, i) in c.pendingSpend || i.prevout in a.spent)
            && (id !in a.confirmed && a.spent <= a.credited ==> free)
  {
    var d, id := Send(h, c, tx), TxId(h, tx);
    SendOk(h, known, c, a, tx);
    ConfirmIff(h, known, d, a, id, keys);
    assert d.Coins() == c.Coins() && d.pendingTxs[id] == tx;
    OwnPoints(h, keys, tx);
    PointSetAppend(c.seeds, c.purse.queue);
    var own, ins := PaidBack(h, keys, tx), PointSet(tx.inputs);
    if id !in a.confirmed && a.spent <= a.credited {
      NotOwn(a.credited, own, a.confirmed, id);
    }
    ForgetPoints(h, known, c.pendingSpend, tx.inputs);
    var left := PendingPoints(Forget(h, c.pendingSpend, tx.inputs));
    forall i | i in tx.inputs
      ensures i.prevout !in PointSet(c.Coins()) + left <==> InputHash(h, i) in c.pendingSpend || i.prevout in a.spent
    {
      WhereItIs(h, known, c, a, tx.inputs, i);
    }
    InPoints(tx.inputs, PointSet(c.Coins()) + left);
    InputsHeld(c, a, tx.inputs);
  }

  lemma InputsHeld(c: State, a: Accounts, ins: seq<Input>)
    requires forall i | i in ins :: Genuine(c, a, i)
    requires a.credited - a.spent <= Held(c)
    ensures PointSet(ins) <= Held(c) + a.spent
  {
    forall p | p in PointSet(ins) ensures p in a.credited {
      var k :| 0 <= k < |ins| && Points(ins)[k] == p;
      assert ins[k] in ins;
    }
  }

  /** One of the client's coins is tied up, spent, or in the wallet. */
  lemma WhereItIs(h: Digest, known: set<Input>, c: State, a: Accounts, ins: seq<Input>, i: Input)
    requires NoCollisions(h, known) && Inv(h, known, c, a) && Conserved(c, a)
    requires i in ins && (forall j | j in ins :: j in known) && Genuine(c, a, i)
    ensures i.prevout !in PointSet(c.Coins()) + PendingPoints(Forget(h, c.pendingSpend, ins)) <==>
            InputHash(h, i) in c.pendingSpend || i.prevout in a.spent
  {
    ForgetPoints(h, known, c.pendingSpend, ins);
    if InputHash(h, i) in c.pendingSpend {
      FiledIsTied(h, known, c.pendingSpend, i);
      ForgetTied(h, known, c.pendingSpend, ins, i);
    } else {
      assert i.prevout !in PendingPoints(c.pendingSpend);
    }
  }
}

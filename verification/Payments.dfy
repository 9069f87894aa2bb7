/** What a payment does to the client's funds, from the creation of the transaction to its confirmation. */
module Payments {
  import opened Common
  import opened Identifiers
  import opened Validation
  import opened Coins
  import opened Client

  // ---------------------------------------------------------------- creating, at once

  /** What creating does, at once: seeds go first, then the front of the queue. */
  ghost predicate AtOnce(h: Digest, c: State, n: nat, e: State)
    requires n <= |c.Coins()|
  {
    && Taking(c, n, e) && e.pendingTxs == c.pendingTxs
    && e.pendingSpend == Register(h, c.pendingSpend, c.Coins()[..n])
  }

  ghost predicate Taking(c: State, n: nat, e: State)
    requires n <= |c.Coins()|
  {
    var k := if n <= |c.seeds| then n else |c.seeds|;
    e.seeds == c.seeds[k..] && e.purse == Pop(c.purse, n - k)
  }

  lemma {:induction false} CreateAtOnce(h: Digest, c: State, n: nat, e: State)
    requires n <= |c.Coins()| && e == Create(h, c, n)
    ensures AtOnce(h, c, n, e)
  {
    if n > 0 {
      var d := Create(h, c, n - 1);
      CreateAtOnce(h, c, n - 1, d);
      CreateMore(h, c, n);
      PickAtOnce(h, c, n, d, e);
    }
  }

  lemma PickAtOnce(h: Digest, c: State, n: nat, d: State, e: State)
    requires 0 < n <= |c.Coins()| && d.Coins() == c.Coins()[n - 1..] && AtOnce(h, c, n - 1, d)
    requires e == PickOne(h, d)
    ensures AtOnce(h, c, n, e)
  {
    RegisterNext(h, c.pendingSpend, c.Coins(), n);
    FirstLeft(c.Coins(), d.Coins(), n);
    TakeOneMore(h, c, n, d, e);
  }

  lemma TakeOneMore(h: Digest, c: State, n: nat, d: State, e: State)
    requires 0 < n <= |c.Coins()| && d.Coins() != [] && Taking(c, n - 1, d) && e == PickOne(h, d)
    ensures Taking(c, n, e)
  {
    if n <= |c.seeds| {
      PickSeed(h, c, n, d, e);
    } else {
      PickCoin(h, c, n, d, e);
    }
  }

  lemma PickSeed(h: Digest, c: State, n: nat, d: State, e: State)
    requires 0 < n <= |c.seeds| && d.Coins() != [] && e == PickOne(h, d)
    requires d.seeds == c.seeds[n - 1..] && d.purse == c.purse
    ensures e.seeds == c.seeds[n..] && e.purse == c.purse
  {
    NextSeed(c.seeds, d.seeds, n);
  }

  lemma PickCoin(h: Digest, c: State, n: nat, d: State, e: State)
    requires |c.seeds| < n <= |c.Coins()| && d.Coins() != [] && e == PickOne(h, d)
    requires d.seeds == [] && d.purse == Pop(c.purse, n - 1 - |c.seeds|)
    ensures e.seeds == [] && e.purse == Pop(c.purse, n - |c.seeds|)
  {
    PopNext(c.purse, n - |c.seeds|);
  }

  lemma NextSeed(seeds: seq<Input>, left: seq<Input>, n: nat)
    requires 0 < n <= |seeds| && left == seeds[n - 1..]
    ensures left != [] && left[1..] == seeds[n..]
  {
  }

  lemma PopNext(p: Purse, n: nat)
    requires 0 < n <= |p.queue|
    ensures Pop(p, n) == PopOne(Pop(p, n - 1))
  {
  }

  lemma FirstLeft(coins: seq<Input>, left: seq<Input>, n: nat)
    requires 0 < n <= |coins| && left == coins[n - 1..]
    ensures left != [] && left[0] == coins[n - 1]
  {
  }

  lemma RegisterNext(h: Digest, pending: map<Hash, Input>, coins: seq<Input>, n: nat)
    requires 0 < n <= |coins|
    ensures Register(h, pending, coins[..n])
         == RegisterOne(h, Register(h, pending, coins[..n - 1]), coins[n - 1])
  {
    assert coins[..n][..n - 1] == coins[..n - 1] && coins[..n][n - 1] == coins[n - 1];
  }

  lemma OnlyOne(h: Digest, c: State, n: nat, d: State, e: State)
    requires n <= |c.Coins()| && AtOnce(h, c, n, d) && AtOnce(h, c, n, e)
    ensures d == e
  {
  }

  // ---------------------------------------------------------------- what a payment leaves

  /** The outputs are the payment and the change. */
  ghost predicate PaysTo(tx: FullTx, value: u64, payee: Hash, change: Hash) {
    var total := Total(tx.inputs);
    value <= total < U64_RANGE && Pays(tx.outputs, value, payee, total, change)
  }

  /** The key for the change, if there is any, is the wallet's. */
  function KeysAfter(keys: set<Hash>, tx: FullTx, value: u64, change: Hash): set<Hash> {
    keys + if Total(tx.inputs) > value then {change} else {}
  }

  lemma {:induction false} RegisterIs(h: Digest, pending: map<Hash, Input>, ins: seq<Input>)
    ensures var more := Register(h, pending, ins);
            && more.Keys == pending.Keys + (set i | i in ins :: InputHash(h, i))
            && forall x | x in pending :: more[x] == pending[x]
  {
    if ins != [] {
      var n := |ins| - 1;
      RegisterIs(h, pending, ins[..n]);
      assert ins == ins[..n] + [ins[n]];
    }
  }

  /** Tying up what was not tied up, and letting go of it, changes nothing. */
  lemma RegisterForget(h: Digest, pending: map<Hash, Input>, ins: seq<Input>)
    requires forall i | i in ins :: InputHash(h, i) !in pending
    ensures Forget(h, Register(h, pending, ins), ins) == pending
  {
    RegisterIs(h, pending, ins);
    ForgetIs(h, Register(h, pending, ins), ins);
  }

  /** New credits join the queue as they come. */
  lemma {:induction false} AddFresh(p: Purse, credits: seq<Input>)
    requires Distinct(Points(credits)) && forall k | 0 <= k < |credits| :: credits[k].prevout !in p.utxos
    ensures Add(p, credits).queue == p.queue + credits
    ensures forall x | x in Add(p, credits).utxos && x !in p.utxos :: x in Points(credits)
  {
    if credits != [] {
      var n := |credits| - 1;
      FirstPoints(credits, n);
      AddFresh(p, credits[..n]);
      assert p.queue + credits == p.queue + credits[..n] + [credits[n]];
    }
  }

  lemma FirstPoints(q: seq<Input>, n: nat)
    requires n < |q| && Distinct(Points(q))
    ensures Distinct(Points(q[..n])) && q[n].prevout !in Points(q[..n]) && q[n].prevout in Points(q)
    ensures forall x | x in Points(q[..n]) :: x in Points(q)
  {
    assert Points(q[..n]) == Points(q)[..n];
    assert Points(q)[n] == q[n].prevout;
    forall k | 0 <= k < n ensures Points(q)[k] != Points(q)[n] { }
  }

  /** The coins that a transaction takes are not tied up. */
  lemma CoinsUntied(h: Digest, known: set<Input>, c: State, a: Accounts, i: Input)
    requires NoCollisions(h, known) && Inv(h, known, c, a) && Conserved(c, a) && i in c.Coins()
    ensures InputHash(h, i) !in c.pendingSpend
  {
    if InputHash(h, i) in c.pendingSpend {
      FiledIsTied(h, known, c.pendingSpend, i);
      InPoints(c.Coins(), PendingPoints(c.pendingSpend));
    }
  }

  /** Outputs of a transaction that was not confirmed before are new to the client. */
  lemma OwnAreNew(h: Digest, known: set<Input>, c: State, a: Accounts, tx: FullTx, keys: set<Hash>)
    requires Inv(h, known, c, a) && tx.Sized() && TxId(h, tx) !in a.confirmed
    ensures PointSet(Own(h, keys, tx)) !! Held(c) && Distinct(Points(Own(h, keys, tx)))
  {
    OwnPoints(h, keys, tx);
    OwnDistinct(h, keys, tx, |tx.outputs|);
    NotOwn(a.credited, PaidBack(h, keys, tx), a.confirmed, TxId(h, tx));
  }

  /** The client after a transaction over its first `n` coins has been created, sent and confirmed. */
  function Settled(h: Digest, c: State, n: nat, tx: FullTx, keys: set<Hash>): State
    requires n <= |c.Coins()| && tx.Sized() && TxId(h, tx) !in c.pendingTxs
  {
    Confirm(h, Send(h, Create(h, c, n), tx), TxId(h, tx), keys)
  }

  lemma SettledIs(h: Digest, known: set<Input>, c: State, a: Accounts, n: nat, tx: FullTx, keys: set<Hash>)
    requires NoCollisions(h, known) && Inv(h, known, c, a) && Conserved(c, a) && n <= |c.Coins()|
    requires tx.Sized() && tx.inputs == c.Coins()[..n] && TxId(h, tx) !in c.pendingTxs && TxId(h, tx) !in a.confirmed
    ensures var d := Settled(h, c, n, tx, keys);
            && d.pendingTxs == c.pendingTxs && d.pendingSpend == c.pendingSpend
            && d.Coins() == c.Coins()[n..] + Own(h, keys, tx)
  {
    var own, b := Own(h, keys, tx), Create(h, c, n);
    CreateAtOnce(h, c, n, b);
    forall i | i in tx.inputs ensures InputHash(h, i) !in c.pendingSpend { CoinsUntied(h, known, c, a, i); }
    RegisterForget(h, c.pendingSpend, tx.inputs);
    CreateOk(h, known, c, a, n);
    OwnAreNew(h, known, b, a, tx, keys);
    SendAndConfirm(h, b, tx, keys);
  }

  lemma SendAndConfirm(h: Digest, b: State, tx: FullTx, keys: set<Hash>)
    requires tx.Sized() && TxId(h, tx) !in b.pendingTxs && b.purse.utxos.Keys <= PointSet(b.purse.queue)
    requires PointSet(Own(h, keys, tx)) !! Held(b) && Distinct(Points(Own(h, keys, tx)))
    ensures var d := Confirm(h, Send(h, b, tx), TxId(h, tx), keys);
            && d.pendingTxs == b.pendingTxs && d.pendingSpend == Forget(h, b.pendingSpend, tx.inputs)
            && d.Coins() == b.Coins() + Own(h, keys, tx)
  {
    var id, own := TxId(h, tx), Own(h, keys, tx);
    var e := Send(h, b, tx);
    assert e == b.(pendingTxs := b.pendingTxs[id := tx]) && e.pendingTxs - {id} == b.pendingTxs;
    ConfirmFields(h, e, id, tx, keys, Confirm(h, e, id, keys));
    CreditedCoins(b, own);
  }

  lemma CreditedCoins(b: State, own: seq<Input>)
    requires b.purse.utxos.Keys <= PointSet(b.purse.queue) && PointSet(own) !! Held(b) && Distinct(Points(own))
    ensures b.seeds + Add(b.purse, own).queue == b.Coins() + own
  {
    NewToPurse(b, own);
    AddFresh(b.purse, own);
    assert b.seeds + (b.purse.queue + own) == b.Coins() + own;
  }

  lemma ConfirmFields(h: Digest, e: State, id: Hash, tx: FullTx, keys: set<Hash>, d: State)
    requires id in e.pendingTxs && e.pendingTxs[id] == tx && tx.Sized() && d == Confirm(h, e, id, keys)
    ensures d.pendingTxs == e.pendingTxs - {id} && d.pendingSpend == Forget(h, e.pendingSpend, tx.inputs)
    ensures d.Coins() == e.seeds + Add(e.purse, Own(h, keys, tx)).queue
  {
  }

  lemma NewToPurse(b: State, own: seq<Input>)
    requires b.purse.utxos.Keys <= PointSet(b.purse.queue) && PointSet(own) !! Held(b)
    ensures forall k | 0 <= k < |own| :: own[k].prevout !in b.purse.utxos
  {
    PointSetAppend(b.seeds, b.purse.queue);
    InPoints(own, Held(b));
    forall k | 0 <= k < |own| ensures own[k].prevout !in b.purse.utxos { assert own[k] in own; }
  }

  /** What the client holds is worth less by exactly what went to others. */
  lemma PaymentWorth(h: Digest, known: set<Input>, c: State, a: Accounts, n: nat, tx: FullTx, keys: set<Hash>)
    requires NoCollisions(h, known) && Inv(h, known, c, a) && Conserved(c, a) && n <= |c.Coins()|
    requires tx.Sized() && tx.inputs == c.Coins()[..n] && TxId(h, tx) !in c.pendingTxs && TxId(h, tx) !in a.confirmed
    requires Sum(OutputValues(tx.outputs)) == Total(tx.inputs)
    ensures var d := Settled(h, c, n, tx, keys);
            && d.pendingTxs == c.pendingTxs && d.pendingSpend == c.pendingSpend
            && Total(d.Coins()) + Given(tx.outputs, keys) == Total(c.Coins())
  {
    SettledIs(h, known, c, a, n, tx, keys);
    assert c.Coins() == c.Coins()[..n] + c.Coins()[n..];
    TotalAppend(c.Coins()[..n], c.Coins()[n..]);
    TotalAppend(c.Coins()[n..], Own(h, keys, tx));
    OwnTotal(h, keys, tx, |tx.outputs|);
    assert tx.outputs[..|tx.outputs|] == tx.outputs;
  }

  /** A payment to someone else costs the amount, and no more. */
  lemma PaymentCosts(h: Digest, known: set<Input>, c: State, a: Accounts, n: nat, tx: FullTx, keys: set<Hash>,
                     value: u64, payee: Hash, change: Hash)
    requires NoCollisions(h, known) && Inv(h, known, c, a) && Conserved(c, a) && n <= |c.Coins()|
    requires tx.Sized() && tx.inputs == c.Coins()[..n] && TxId(h, tx) !in c.pendingTxs && TxId(h, tx) !in a.confirmed
    requires PaysTo(tx, value, payee, change) && payee !in KeysAfter(keys, tx, value, change)
    ensures var d := Settled(h, c, n, tx, KeysAfter(keys, tx, value, change));
            && d.pendingTxs == c.pendingTxs && d.pendingSpend == c.pendingSpend
            && Total(d.Coins()) == Total(c.Coins()) - value
  {
    var total := Total(tx.inputs);
    PaySum(tx.outputs, value, payee, total, change);
    PayGiven(tx.outputs, value, payee, total, change, KeysAfter(keys, tx, value, change));
    PaymentWorth(h, known, c, a, n, tx, KeysAfter(keys, tx, value, change));
  }
}

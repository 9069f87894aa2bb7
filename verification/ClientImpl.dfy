/** The client as the code runs it, on top of its wallet. */
module ClientImpl {
  import opened Common
  import opened Identifiers
  import opened Validation
  import opened Coins
  import opened WalletImpl
  import opened Payments
  import Spec = Client

  class Client {
    const wallet: Wallet
    var pendingTxs: map<Hash, FullTx>
    var pendingSpend: map<Hash, Input>
    ghost const known: set<Input>
    ghost var accounts: Spec.Accounts

    ghost function View(): Spec.State
      requires wallet.seedFrom <= wallet.seedTo
      reads this, wallet
    {
      Spec.State(SeedInputs(wallet.seeds, wallet.seedFrom, wallet.seedTo), wallet.Stored(), pendingTxs, pendingSpend)
    }

    /** The wallet need not be in order: what the client keeps, it keeps in every run. */
    ghost predicate Valid()
      reads this, wallet
    {
      && wallet.seedFrom <= wallet.seedTo && Spec.NoCollisions(wallet.seeds.h, known)
      && Spec.Inv(wallet.seeds.h, known, View(), accounts)
    }

    constructor (wallet: Wallet, ghost known: set<Input>)
      requires wallet.Valid() && Spec.NoCollisions(wallet.seeds.h, known)
      requires forall i | i in All(wallet.seeds, wallet.View()) :: i in known
      ensures Valid() && this.wallet == wallet && this.known == known
      ensures Spec.Starting(known, View()) && accounts == Spec.Opening(View()) && Spec.Conserved(View(), accounts)
    {
      this.wallet := wallet;
      this.known := known;
      pendingTxs, pendingSpend := map[], map[];
      ghost var seeds := SeedInputs(wallet.seeds, wallet.seedFrom, wallet.seedTo);
      accounts := Spec.Opening(Spec.State(seeds, wallet.Stored(), map[], map[]));
      new;
      assert View().Coins() == All(wallet.seeds, wallet.View());
      Spec.StartOk(wallet.seeds.h, known, View());
    }

    /** Marks all inputs as pending spends. */
    method RegisterPendingTx(tx: FullTx)
      modifies this`pendingSpend
      ensures pendingSpend == Spec.Register(wallet.seeds.h, old(pendingSpend), tx.inputs)
    {
      var ins := tx.inputs;
      for k := 0 to |ins|
        invariant pendingSpend == Spec.Register(wallet.seeds.h, old(pendingSpend), ins[..k])
      {
        assert ins[..k + 1][..k] == ins[..k];
        var x := InputHash(wallet.seeds.h, ins[k]);
        if x !in pendingSpend {
          pendingSpend := pendingSpend[x := ins[k]];
        }
      }
      assert ins[..|ins|] == ins;
    }

    /** Whether some pending transaction has this input. */
    method CheckPending(i: Input) returns (used: bool)
      ensures used == Spec.Used(pendingTxs, i)
    {
      var ids := pendingTxs.Keys;
      while ids != {}
        invariant ids <= pendingTxs.Keys
        invariant forall id | id in pendingTxs && id !in ids :: i !in pendingTxs[id].inputs
        decreases ids
      {
        var id :| id in ids;
        var ins := pendingTxs[id].inputs;
        for k := 0 to |ins|
          invariant i !in ins[..k]
        {
          if ins[k] == i {
            assert i in pendingTxs[id].inputs;
            return true;
          }
        }
        assert ins[..|ins|] == ins;
        ids := ids - {id};
      }
      return false;
    }

    method ReleaseInput(i: Input)
      requires wallet.seedFrom <= wallet.seedTo
      modifies this`pendingSpend, wallet`queue, wallet`utxos, wallet`balance
      ensures View() == Spec.ReleaseOne(wallet.seeds.h, old(View()), i)
    {
      var x := InputHash(wallet.seeds.h, i);
      if x in pendingSpend {
        var used := CheckPending(i);
        if !used {
          pendingSpend := pendingSpend - {x};
          OneCredit(wallet.Stored(), i);
          wallet.UpdateBalance([i], []);
        }
      }
    }

    method AbandonTransaction(id: Hash) returns (success: bool)
      requires Valid()
      modifies this`pendingTxs, this`pendingSpend, wallet`queue, wallet`utxos, wallet`balance
      ensures Valid() && View() == Spec.Abandon(wallet.seeds.h, old(View()), id)
      ensures success <==> id in old(pendingTxs)
    {
      Spec.AbandonOk(wallet.seeds.h, known, View(), accounts, id);
      if id !in pendingTxs {
        return false;
      }
      var ins := pendingTxs[id].inputs;
      pendingTxs := pendingTxs - {id};
      ReleaseAll(ins);
      return true;
    }

    method ReleaseAll(ins: seq<Input>)
      requires wallet.seedFrom <= wallet.seedTo
      modifies this`pendingSpend, wallet`queue, wallet`utxos, wallet`balance
      ensures View() == Spec.Release(wallet.seeds.h, old(View()), ins)
    {
      ghost var d := View();
      for k := 0 to |ins|
        invariant View() == Spec.Release(wallet.seeds.h, d, ins[..k])
      {
        assert ins[..k + 1][..k] == ins[..k];
        ReleaseInput(ins[k]);
      }
      assert ins[..|ins|] == ins;
    }

    /** Pays from the wallet; the inputs of the transaction are tied up from then on. */
    method CreateTransaction(value: u64, payee: Hash, change: Hash) returns (r: Option<FullTx>)
      requires Valid() && Total(View().Coins()) < U64_RANGE
      modifies this`pendingSpend, wallet`seedFrom, wallet`queue, wallet`utxos, wallet`balance, wallet`keys
      ensures Valid()
      ensures r.None? <==> Total(old(View()).Coins()) < value
      ensures r.None? ==> View() == old(View()) && wallet.keys == old(wallet.keys)
      ensures r.Some? ==> Created(wallet.seeds.h, old(View()), View(), r.value.inputs)
      ensures r.Some? ==>
        PaysTo(r.value, value, payee, change) && wallet.keys == KeysAfter(old(wallet.keys), r.value, value, change)
    {
      ghost var c := View();
      r := Pay(value, payee, change);
      if r.Some? {
        Spec.CreateOk(wallet.seeds.h, known, c, accounts, |r.value.inputs|);
      }
    }

    method Pay(value: u64, payee: Hash, change: Hash) returns (r: Option<FullTx>)
      requires wallet.seedFrom <= wallet.seedTo && Total(View().Coins()) < U64_RANGE
      modifies this`pendingSpend, wallet`seedFrom, wallet`queue, wallet`utxos, wallet`balance, wallet`keys
      ensures wallet.seedFrom <= wallet.seedTo
      ensures r.None? <==> Total(old(View()).Coins()) < value
      ensures r.None? ==> View() == old(View()) && wallet.keys == old(wallet.keys)
      ensures r.Some? ==> Created(wallet.seeds.h, old(View()), View(), r.value.inputs)
      ensures r.Some? ==>
        PaysTo(r.value, value, payee, change) && wallet.keys == KeysAfter(old(wallet.keys), r.value, value, change)
    {
      ghost var c, f := View(), wallet.View();
      assert c.Coins() == All(wallet.seeds, f) && Shows(wallet.seeds, f, c);
      r := Draw(value, payee, change);
      if r.Some? {
        TieUp(r.value, f, c);
      }
    }

    /** Marks the inputs that were drawn from the wallet, which was as in `f` when the client was as in `c`. */
    method TieUp(tx: FullTx, ghost f: Funds, ghost c: Spec.State)
      requires TakesFirst(wallet.seeds, f, wallet.View(), tx.inputs) && Shows(wallet.seeds, f, c)
      requires wallet.seedFrom <= wallet.seedTo && pendingTxs == c.pendingTxs && pendingSpend == c.pendingSpend
      modifies this`pendingSpend
      ensures Created(wallet.seeds.h, c, View(), tx.inputs)
    {
      RegisterPendingTx(tx);
      assert Shows(wallet.seeds, wallet.View(), View());
      TakenIsCreate(wallet.seeds, f, wallet.View(), tx.inputs, c, View());
    }

    method Draw(value: u64, payee: Hash, change: Hash) returns (r: Option<FullTx>)
      requires wallet.seedFrom <= wallet.seedTo && Total(All(wallet.seeds, wallet.View())) < U64_RANGE
      modifies wallet`seedFrom, wallet`queue, wallet`utxos, wallet`balance, wallet`keys
      ensures wallet.seedFrom <= wallet.seedTo
      ensures r.None? <==> Total(All(wallet.seeds, old(wallet.View()))) < value
      ensures r.None? ==> wallet.View() == old(wallet.View()) && wallet.keys == old(wallet.keys)
      ensures r.Some? ==> TakesFirst(wallet.seeds, old(wallet.View()), wallet.View(), r.value.inputs)
      ensures r.Some? ==>
        PaysTo(r.value, value, payee, change) && wallet.keys == KeysAfter(old(wallet.keys), r.value, value, change)
    {
      ghost var f := wallet.View();
      r := wallet.SendTo(value, payee, change);
      if r.Some? {
        PaidTaken(wallet.seeds, f, wallet.View(), value, r.value);
      }
    }

    /** Any transaction may be sent, whether or not its inputs are tied up. */
    method ImportTransaction(tx: FullTx)
      requires Valid() && tx.Sized() && forall i | i in tx.inputs :: i in known
      modifies this`pendingTxs
      ensures Valid() && View() == Spec.Send(wallet.seeds.h, old(View()), tx)
    {
      Spec.SendOk(wallet.seeds.h, known, View(), accounts, tx);
      var id := TxId(wallet.seeds.h, tx);
      if id !in pendingTxs {
        pendingTxs := pendingTxs[id := tx];
      }
    }

    /** Takes note of a report that a transaction has settled, at any time and however often. If funds were
        conserved they still are exactly when the report meets the condition. */
    method ConfirmTransaction(id: Hash) returns (success: bool)
      requires Valid()
      requires id in pendingTxs ==>
        forall i | i in Spec.Own(wallet.seeds.h, wallet.keys, pendingTxs[id]) :: i in known
      modifies this`pendingTxs, this`pendingSpend, this`accounts, wallet`queue, wallet`utxos, wallet`balance
      ensures Valid() && View() == Spec.Confirm(wallet.seeds.h, old(View()), id, wallet.keys)
      ensures accounts == Spec.Settle(wallet.seeds.h, old(View()), old(accounts), id, wallet.keys)
      ensures success <==> id in old(pendingTxs)
      ensures old(Spec.Conserved(View(), accounts)) ==>
        (Spec.Conserved(View(), accounts) <==>
           Spec.Meets(wallet.seeds.h, old(View()), old(accounts), id, wallet.keys))
    {
      ghost var c, h := View(), wallet.seeds.h;
      Spec.ConfirmOk(h, known, c, accounts, id, wallet.keys);
      if Spec.Conserved(c, accounts) {
        Spec.ConfirmIff(h, known, c, accounts, id, wallet.keys);
      }
      if id !in pendingTxs {
        return false;
      }
      Settled(id);
      accounts := Spec.Settle(h, c, accounts, id, wallet.keys);
      return true;
    }

    method Settled(id: Hash)
      requires wallet.seedFrom <= wallet.seedTo && id in pendingTxs && pendingTxs[id].Sized()
      modifies this`pendingTxs, this`pendingSpend, wallet`queue, wallet`utxos, wallet`balance
      ensures View() == Spec.Confirm(wallet.seeds.h, old(View()), id, wallet.keys)
    {
      wallet.ConfirmTransaction(pendingTxs[id]);
      EraseSpends(pendingTxs[id].inputs);
      pendingTxs := pendingTxs - {id};
    }

    method EraseSpends(ins: seq<Input>)
      modifies this`pendingSpend
      ensures pendingSpend == Spec.Forget(wallet.seeds.h, old(pendingSpend), ins)
    {
      for k := 0 to |ins|
        invariant pendingSpend == Spec.Forget(wallet.seeds.h, old(pendingSpend), ins[..k])
      {
        assert ins[..k + 1][..k] == ins[..k];
        pendingSpend := pendingSpend - {InputHash(wallet.seeds.h, ins[k])};
      }
      assert ins[..|ins|] == ins;
    }
  }

  /** The inputs are the first coins, which are now tied up. */
  ghost predicate Created(h: Digest, c: Spec.State, d: Spec.State, ins: seq<Input>) {
    |ins| <= |c.Coins()| && ins == c.Coins()[..|ins|] && d == Spec.Create(h, c, |ins|)
  }

  lemma OneCredit(p: Purse, i: Input)
    ensures Strike(Add(p, [i]), []) == AddOne(p, i)
  {
    assert [i][..0] == [];
    assert Add(p, []) == p;
  }

  /** The client's view of a wallet. */
  ghost predicate Shows(s: Seeds, f: Funds, c: Spec.State) {
    f.seedFrom <= f.seedTo && c.seeds == SeedInputs(s, f.seedFrom, f.seedTo) && c.purse == f.Stored()
  }

  /** The inputs are the first the wallet had, and it has the others. */
  ghost predicate TakesFirst(s: Seeds, f: Funds, g: Funds, ins: seq<Input>) {
    f.seedFrom <= f.seedTo && |ins| <= |All(s, f)| && ins == All(s, f)[..|ins|] && g == Taken(f, |ins|)
  }

  lemma PaidTaken(s: Seeds, f: Funds, g: Funds, amount: nat, tx: FullTx)
    requires f.seedFrom <= f.seedTo && Paid(s, f, g, amount, tx)
    ensures TakesFirst(s, f, g, tx.inputs)
  {
  }

  /** Paying takes the inputs of the transaction from the wallet as creating does. */
  lemma TakenIsCreate(s: Seeds, f: Funds, g: Funds, ins: seq<Input>, c: Spec.State, d: Spec.State)
    requires TakesFirst(s, f, g, ins) && Shows(s, f, c) && Shows(s, g, d) && d.pendingTxs == c.pendingTxs
    requires d.pendingSpend == Spec.Register(s.h, c.pendingSpend, ins)
    ensures Created(s.h, c, d, ins)
  {
    var n := |ins|;
    TakenParts(s, f, g, n);
    assert c.Coins() == All(s, f);
    assert AtOnce(s.h, c, n, d);
    CreateAtOnce(s.h, c, n, Spec.Create(s.h, c, n));
    OnlyOne(s.h, c, n, d, Spec.Create(s.h, c, n));
  }

  lemma TakenParts(s: Seeds, f: Funds, g: Funds, n: nat)
    requires f.seedFrom <= f.seedTo && n <= |All(s, f)| && g == Taken(f, n)
    ensures g.seedFrom <= g.seedTo
    ensures var seeds := SeedInputs(s, f.seedFrom, f.seedTo);
            var k := if n <= |seeds| then n else |seeds|;
            SeedInputs(s, g.seedFrom, g.seedTo) == seeds[k..] && g.Stored() == Pop(f.Stored(), n - k)
  {
    TakenFields(f, g, n, SeedsTaken(f, n));
    SeedsListed(s, f.seedFrom, f.seedTo);
    FewerSeeds(s, f.seedFrom, f.seedTo, g.seedFrom, SeedsTaken(f, n));
  }

  lemma TakenFields(f: Funds, g: Funds, n: nat, k: nat)
    requires f.seedFrom <= f.seedTo && n <= f.seedTo - f.seedFrom + |f.queue|
    requires g == Taken(f, n) && k == SeedsTaken(f, n)
    ensures g.seedFrom == f.seedFrom + k && g.seedTo == f.seedTo && g.Stored() == Pop(f.Stored(), n - k)
  {
  }

  lemma FewerSeeds(s: Seeds, seedFrom: u64, seedTo: u64, next: u64, k: nat)
    requires next == seedFrom + k && next <= seedTo
    ensures SeedInputs(s, next, seedTo) == SeedInputs(s, seedFrom, seedTo)[k..]
  {
    SeedsListed(s, seedFrom, seedTo);
    SeedsListed(s, next, seedTo);
    var a, b := SeedInputs(s, next, seedTo), SeedInputs(s, seedFrom, seedTo);
    forall j | 0 <= j < |a| ensures a[j] == b[k..][j] {
      assert a[j] == SeedAt(s)(next + j) == b[k + j];
    }
  }
}

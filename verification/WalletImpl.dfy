/** The wallet as the code runs it. */
module WalletImpl {
  import opened Common
  import opened Identifiers
  import opened Validation
  import opened Coins
  import WalletFile

  /** The witness that signing puts at each position; what is in it is not modelled. */
  type Signer = (FullTx, nat) -> seq<byte>

  function Sign(signer: Signer, tx: FullTx): FullTx {
    tx.(witnesses := seq(|tx.inputs|, i requires 0 <= i < |tx.inputs| => signer(tx, i)))
  }

  class Wallet {
    const signer: Signer
    var seeds: Seeds
    var seedFrom: u64
    var seedTo: u64
    var queue: seq<Input>
    var utxos: map<OutPoint, Input>
    var balance: u64
    /** The commitments of the wallet's keys. */
    var keys: set<Hash>

    ghost function View(): Funds
      reads this
    {
      Funds(queue, utxos, balance, seedFrom, seedTo)
    }

    ghost function Stored(): Purse
      reads this`queue, this`utxos, this`balance
    {
      Purse(queue, utxos, balance)
    }

    ghost predicate Valid()
      reads this
    {
      Consistent(seeds, View())
    }

    constructor (h: Digest, signer: Signer)
      ensures Valid() && queue == [] && keys == {} && seedFrom == seedTo && seeds.h == h
    {
      this.signer := signer;
      seeds := Seeds(h, NoHash(), 0);
      seedFrom, seedTo, balance := 0, 0, 0;
      queue, utxos, keys := [], map[], {};
    }

    /** Makes the wallet own the seeds of a range. Only a wallet without keys can be seeded; it is in order
        afterwards if and only if the out-points of the seeds and of what it holds are distinct, and if it held
        nothing it is enough that the made-up transactions do not collide. */
    method Seed(commitment: Hash, value: u64, begin: u64, end: u64) returns (ok: bool)
      requires Valid()
      modifies this`keys, this`seeds, this`seedFrom, this`seedTo
      ensures ok <==> begin < end && old(keys) == {}
      ensures !ok ==> Valid() && View() == old(View()) && keys == old(keys) && seeds == old(seeds)
      ensures ok ==>
        && keys == {commitment} && seeds == Seeds(old(seeds).h, commitment, value)
        && View() == old(View()).(seedFrom := begin, seedTo := end)
        && (Valid() <==> Distinct(Points(All(seeds, View()))))
        && (queue == [] && SeedsCollisionFree(seeds, begin, end) ==> Valid())
    {
      if end <= begin || keys != {} {
        return false;
      }
      keys := {commitment};
      seedFrom, seedTo := begin, end;
      seeds := Seeds(seeds.h, commitment, value);
      if queue == [] && SeedsCollisionFree(seeds, begin, end) {
        SeedsDistinct(seeds, begin, end);
        assert All(seeds, View()) == SeedInputs(seeds, begin, end);
      }
      return true;
    }

    // -------------------------------------------------------------- the wallet file

    /** The set, as it goes to disk; the commitments of the keys are saved beside it. */
    method Save() returns (file: seq<byte>, saved: set<Hash>)
      requires (forall p | p in utxos :: utxos[p].prevout == p) && |utxos| < U64_RANGE
      ensures WalletFile.Saves(file, utxos) && saved == keys
    {
      file := WalletFile.SaveSet(utxos);
      saved := keys;
    }

    /** Replaces keys, set, queue and balance by what is on file. Queue and balance are made up from the set; the
        queue comes in the order of the set. Seeds are not on file, and stay as they are. */
    method Load(file: seq<byte>, saved: set<Hash>)
      modifies this`keys, this`queue, this`utxos, this`balance
      ensures keys == saved && InStep(Stored()) && WalletFile.Sorted(queue)
      ensures forall u | WalletFile.Saves(file, u) :: utxos == u
      ensures seedFrom == seedTo ==> Valid()
    {
      keys := saved;
      utxos := WalletFile.LoadSet(file);
      var order := WalletFile.Walk(utxos);
      Refill(order);
      if seedFrom == seedTo {
        assert All(seeds, View()) == queue;
      }
    }

    method Refill(order: seq<Input>)
      modifies this`queue, this`balance
      ensures queue == order && balance == Total(order) % U64_RANGE
    {
      queue, balance := [], 0;
      for k := 0 to |order|
        invariant queue == order[..k] && balance == Total(order[..k]) % U64_RANGE
      {
        TotalSnoc(order[..k], order[k]);
        assert order[..k + 1] == order[..k] + [order[k]];
        balance := (balance + order[k].data.value) % U64_RANGE;
        queue := queue + [order[k]];
      }
      assert order[..|order|] == order;
    }

    // -------------------------------------------------------------- crediting and debiting

    method CreditIfNew(x: Input)
      modifies this`queue, this`utxos, this`balance
      ensures Stored() == AddOne(old(Stored()), x)
    {
      if x.prevout !in utxos {
        utxos := utxos[x.prevout := x];
        balance := (balance + x.data.value) % U64_RANGE;
        queue := queue + [x];
      }
    }

    method CreditAll(credits: seq<Input>)
      modifies this`queue, this`utxos, this`balance
      ensures Stored() == Add(old(Stored()), credits)
    {
      for i := 0 to |credits|
        invariant Stored() == Add(old(Stored()), credits[..i])
      {
        assert credits[..i + 1][..i] == credits[..i];
        CreditIfNew(credits[i]);
      }
      assert credits[..|credits|] == credits;
    }

    method DebitAll(debits: seq<Input>)
      modifies this`utxos, this`balance
      ensures Stored() == Strike(old(Stored()), debits)
    {
      for i := 0 to |debits|
        invariant utxos == Debit(old(utxos), debits[..i])
        invariant balance == DebitBalance(old(utxos), old(balance), debits[..i])
      {
        assert debits[..i + 1][..i] == debits[..i];
        if debits[i].prevout in utxos {
          balance := Sub64(balance, debits[i].data.value);
        }
        utxos := utxos - {debits[i].prevout};
      }
      assert debits[..|debits|] == debits;
    }

    /** Debits leave the set and the balance, but not the queue. A wallet in order stays so if and only if no
        debit was in the set and no credit is an unspent seed. */
    method UpdateBalance(credits: seq<Input>, debits: seq<Input>)
      modifies this`queue, this`utxos, this`balance
      ensures Stored() == Strike(Add(old(Stored()), credits), debits)
      ensures old(Valid()) ==>
        && queue == Credit(old(queue), credits)
        && (Valid() <==>
              && (forall d | d in debits :: d.prevout !in Index(queue))
              && Distinct(Points(SeedInputs(seeds, seedFrom, seedTo) + queue)))
    {
      ghost var p := Stored();
      if Valid() {
        AddInStep(p, credits);
        StrikeIff(Add(p, credits), debits);
      }
      CreditAll(credits);
      DebitAll(debits);
    }

    method ConfirmTransaction(tx: FullTx)
      requires tx.Sized()
      modifies this`queue, this`utxos, this`balance
      ensures Stored() == Strike(Add(old(Stored()), OwnOutputs(seeds.h, keys, tx, |tx.outputs|)), tx.inputs)
      ensures old(Valid()) ==>
        && queue == Credit(old(queue), OwnOutputs(seeds.h, keys, tx, |tx.outputs|))
        && (Valid() <==>
              && (forall d | d in tx.inputs :: d.prevout !in Index(queue))
              && Distinct(Points(SeedInputs(seeds, seedFrom, seedTo) + queue)))
    {
      var own: seq<Input> := [];
      for i := 0 to |tx.outputs|
        invariant own == OwnOutputs(seeds.h, keys, tx, i)
      {
        if tx.outputs[i].commitment in keys {
          own := own + [Spending(seeds.h, tx, i)];
        }
      }
      UpdateBalance(own, tx.inputs);
    }

    // -------------------------------------------------------------- selecting

    ghost predicate IsAll(all: seq<Input>, first: u64, last: u64)
      reads this
    {
      first <= last && all == SeedInputs(seeds, first, last) + queue
    }

    method CreateSeededInput(i: u64, ghost all: seq<Input>, ghost first: u64, ghost last: u64) returns (x: Input)
      requires IsAll(all, first, last) && first <= i < last
      ensures i - first < |all| && x == all[i - first]
    {
      assert all[i - first] == SeedAt(seeds)(i);
      x := SeedInput(seeds, i);
    }

    /** Seeds are spent first; one that is not needed is not touched. */
    method TakeSeeds(amount: nat, ghost all: seq<Input>) returns (ins: seq<Input>, total: u64)
      requires seedFrom <= seedTo && IsAll(all, seedFrom, seedTo) && Total(all) < U64_RANGE
      modifies this`seedFrom
      ensures seedFrom <= seedTo && old(seedFrom) + |ins| == seedFrom && total == Total(ins)
      ensures Reaching(all, ins, amount) && (seedFrom == seedTo || total >= amount)
    {
      ins, total := [], 0;
      ghost var f := View();
      while seedFrom != seedTo && total < amount
        invariant f.seedFrom <= seedFrom <= seedTo && |ins| == seedFrom - f.seedFrom && total == Total(ins)
        invariant Reaching(all, ins, amount) && IsAll(all, f.seedFrom, seedTo)
        decreases seedTo - seedFrom
      {
        var x := CreateSeededInput(seedFrom, all, f.seedFrom, seedTo);
        ReachFurther(all, ins, amount);
        ins, total := ins + [x], (total + x.data.value) % U64_RANGE;
        seedFrom := seedFrom + 1;
      }
    }

    /** Then the queue, oldest first; nothing is removed yet. */
    method TakeQueue(amount: nat, taken: seq<Input>, sum: u64, ghost all: seq<Input>)
      returns (ins: seq<Input>, total: u64)
      requires |taken| + |queue| == |all| && all == taken + queue && Total(all) < U64_RANGE
      requires Reaching(all, taken, amount) && sum == Total(taken)
      ensures |taken| <= |ins| && total == Total(ins)
      ensures Reaching(all, ins, amount) && (|ins| == |all| || total >= amount)
    {
      var i := 0;
      ins, total := taken, sum;
      while total < amount && i < |queue|
        invariant 0 <= i <= |queue| && |ins| == |taken| + i && total == Total(ins)
        invariant Reaching(all, ins, amount)
      {
        ReachFurther(all, ins, amount);
        var x := queue[i];
        ins, total := ins + [x], (total + x.data.value) % U64_RANGE;
        i := i + 1;
      }
    }

    method PopFront(count: nat)
      requires count <= |queue|
      modifies this`queue, this`utxos, this`balance
      ensures Stored() == Pop(old(Stored()), count)
    {
      for i := 0 to count
        invariant Stored() == Pop(old(Stored()), i)
      {
        var x := queue[0];
        balance := Sub64(balance, x.data.value);
        utxos := utxos - {x.prevout};
        queue := queue[1..];
      }
    }

    /** The seeds are taken already; the rest leaves the queue. */
    method Remove(count: nat, seeded: nat, ghost f: Funds)
      requires f.seedFrom <= f.seedTo && count <= f.seedTo - f.seedFrom + |f.queue| && seeded == SeedsTaken(f, count)
      requires View() == f.(seedFrom := f.seedFrom + seeded)
      modifies this`queue, this`utxos, this`balance
      ensures View() == Taken(f, count) && (Consistent(seeds, f) ==> Valid())
    {
      if Consistent(seeds, f) { TakenConsistent(seeds, f, count); }
      PopFront(count - seeded);
    }

    /** The seeds and then the queue, as far as needed. */
    method Select(amount: nat, ghost all: seq<Input>) returns (ins: seq<Input>, total: u64, seeded: nat)
      requires seedFrom <= seedTo && all == All(seeds, View()) && Total(all) < U64_RANGE
      modifies this`seedFrom
      ensures Reaching(all, ins, amount) && total == Total(ins) && (|ins| == |all| || total >= amount)
      ensures seeded == SeedsTaken(old(View()), |ins|) && seedFrom == old(seedFrom) + seeded
    {
      ghost var f := View();
      ghost var before := queue;
      ins, total := TakeSeeds(amount, all);
      seeded := |ins|;
      ghost var rest := ins + queue;
      Selected(seeds, f, all, ins);
      ghost var taken := ins;
      ins, total := TakeQueue(amount, ins, total, rest);
      NoneExtra(rest, taken, ins, amount);
    }

    /** Selects the fewest inputs, in order, that reach the amount, and takes them out; or leaves the
        wallet as it was. */
    method AccumulateInputs(amount: nat, ghost all: seq<Input>) returns (r: Option<(seq<Input>, u64)>)
      requires seedFrom <= seedTo && all == All(seeds, View()) && Total(all) < U64_RANGE
      modifies this`seedFrom, this`queue, this`utxos, this`balance
      ensures seedFrom <= seedTo && (old(Valid()) ==> Valid()) && (r.None? <==> Total(all) < amount)
      ensures r.None? ==> View() == old(View())
      ensures r.Some? ==>
        var (ins, total) := r.value;
        && |ins| == Needed(all, amount, 0) && ins == all[..|ins|] && amount <= total == Total(ins)
        && View() == Taken(old(View()), |ins|)
    {
      ghost var f := View();
      var ins, total, seeded := Select(amount, all);
      TotalPrefix(all, |ins|);
      if total < amount {
        assert ins == all;
        seedFrom := seedFrom - seeded;
        return None;
      }
      ReachedIsNeeded(all, ins, amount);
      Remove(|ins|, seeded, f);
      return Some((ins, total));
    }

    // -------------------------------------------------------------- spending

    /** Pays an amount. Without enough funds nothing changes; otherwise exactly the inputs of the
        transaction leave the wallet, and if the wallet was in order it passes the structure and value checks if
        and only if the amount is positive. */
    method SendTo(amount: u64, payee: Hash, change: Hash) returns (r: Option<FullTx>)
      requires seedFrom <= seedTo && Total(All(seeds, View())) < U64_RANGE
      modifies this`seedFrom, this`queue, this`utxos, this`balance, this`keys
      ensures seedFrom <= seedTo && (old(Valid()) ==> Valid())
      ensures r.None? <==> old(Total(All(seeds, View()))) < amount
      ensures r.None? ==> View() == old(View()) && keys == old(keys)
      ensures r.Some? ==> Paid(old(seeds), old(View()), View(), amount, r.value)
      ensures r.Some? ==>
        var total := Total(r.value.inputs);
        && amount <= total < U64_RANGE && Pays(r.value.outputs, amount, payee, total, change)
        && keys == old(keys) + if total > amount then {change} else {}
      ensures r.Some? && old(Valid() && Positive(Amounts(All(seeds, View())))) ==>
        (WellFormed(r.value) <==> amount > 0)
    {
      ghost var f, all := View(), All(seeds, View());
      var selected := AccumulateInputs(amount, all);
      if selected.None? {
        return None;
      }
      var (ins, total) := selected.value;
      if total > amount {
        keys := keys + {change};
      }
      var outs := MakePayment(amount, payee, total, change);
      var tx := Sign(signer, FullTx(ins, outs, []));
      Finish(seeds, f, amount, tx);
      return Some(tx);
    }

    /** Pays the same value several times over. */
    method Fan(count: nat, value: u64, payee: Hash, change: Hash) returns (r: Option<FullTx>)
      requires seedFrom <= seedTo && Total(All(seeds, View())) < U64_RANGE && count * value < U64_RANGE
      modifies this`seedFrom, this`queue, this`utxos, this`balance, this`keys
      ensures seedFrom <= seedTo && (old(Valid()) ==> Valid())
      ensures r.None? <==> old(Total(All(seeds, View()))) < count * value
      ensures r.None? ==> View() == old(View()) && keys == old(keys)
      ensures r.Some? ==> Paid(old(seeds), old(View()), View(), count * value, r.value)
      ensures r.Some? ==>
        var total := Total(r.value.inputs);
        && count * value <= total < U64_RANGE && FanPays(r.value.outputs, count, value, payee, total, change)
        && keys == old(keys) + if total > count * value then {change} else {}
      ensures r.Some? && old(Valid() && Positive(Amounts(All(seeds, View())))) ==>
        (WellFormed(r.value) <==> count > 0 && value > 0)
    {
      ghost var f, all := View(), All(seeds, View());
      var amount: u64 := count * value;
      var selected := AccumulateInputs(amount, all);
      if selected.None? {
        return None;
      }
      var (ins, total) := selected.value;
      if total > amount {
        keys := keys + {change};
      }
      var outs := MakeFan(count, value, payee, total, change);
      var tx := Sign(signer, FullTx(ins, outs, []));
      Finish(seeds, f, amount, tx);
      return Some(tx);
    }

    // -------------------------------------------------------------- spending a number of inputs

    method TakeSomeSeeds(count: nat, ghost all: seq<Input>) returns (ins: seq<Input>, total: u64)
      requires IsAll(all, seedFrom, seedTo) && Total(all) < U64_RANGE
      modifies this`seedFrom
      ensures old(seedFrom) + |ins| == seedFrom <= seedTo && |ins| <= count
      ensures |ins| <= |all| && ins == all[..|ins|] && total == Total(ins) && (seedFrom == seedTo || |ins| == count)
    {
      ins, total := [], 0;
      ghost var first := seedFrom;
      while seedFrom != seedTo && |ins| < count
        invariant first <= seedFrom <= seedTo && |ins| == seedFrom - first <= count && total == Total(ins)
        invariant |ins| <= |all| && ins == all[..|ins|] && IsAll(all, first, seedTo)
        decreases seedTo - seedFrom
      {
        var x := CreateSeededInput(seedFrom, all, first, seedTo);
        OneMore(all, ins);
        ins, total := ins + [x], (total + x.data.value) % U64_RANGE;
        seedFrom := seedFrom + 1;
      }
    }

    method TakeSomeOfQueue(count: nat, taken: seq<Input>, sum: u64, ghost all: seq<Input>)
      returns (ins: seq<Input>, total: u64)
      requires |taken| <= count <= |all| && all == taken + queue && Total(all) < U64_RANGE && sum == Total(taken)
      ensures ins == all[..count] && total == Total(ins)
    {
      var i := 0;
      ins, total := taken, sum;
      while i < |queue| && |ins| < count
        invariant 0 <= i <= |queue| && |ins| == |taken| + i <= count && ins == all[..|ins|] && total == Total(ins)
      {
        OneMore(all, ins);
        ins, total := ins + [queue[i]], (total + queue[i].data.value) % U64_RANGE;
        i := i + 1;
      }
    }

    /** Exactly `count` inputs, seeds first. */
    method SelectCount(count: nat, ghost all: seq<Input>) returns (ins: seq<Input>, total: u64, seeded: nat)
      requires seedFrom <= seedTo && all == All(seeds, View()) && Total(all) < U64_RANGE && count <= |all|
      modifies this`seedFrom
      ensures ins == all[..count] && total == Total(ins)
      ensures seeded == SeedsTaken(old(View()), count) && seedFrom == old(seedFrom) + seeded
    {
      ghost var f := View();
      ins, total := TakeSomeSeeds(count, all);
      seeded := |ins|;
      ghost var rest := ins + queue;
      Selected(seeds, f, all, ins);
      assert rest[..|ins|] == ins;
      ins, total := TakeSomeOfQueue(count, ins, total, rest);
    }

    /** Takes out exactly `count` inputs, unless they are too little to be shared. */
    method TakeCount(count: nat, outputs: nat, ghost all: seq<Input>) returns (r: Option<(seq<Input>, u64)>)
      requires Valid() && all == All(seeds, View()) && Total(all) < U64_RANGE && outputs > 0
      modifies this`seedFrom, this`queue, this`utxos, this`balance
      ensures Valid() && (r.None? ==> View() == old(View()))
      ensures r.None? <==> |all| < count || (outputs > 1 && Total(all[..count]) / outputs == 0)
      ensures r.Some? ==>
        r.value.0 == all[..count] && r.value.1 == Total(all[..count]) && View() == Taken(old(View()), count)
    {
      ghost var f := View();
      IndexSize(queue);
      if |utxos| + seedTo - seedFrom < count {
        return None;
      }
      var ins, total, seeded := SelectCount(count, all);
      var share := total / outputs;
      if share == 0 && outputs > 1 {
        seedFrom := seedFrom - seeded;
        return None;
      }
      Remove(count, seeded, f);
      r := Some((ins, total));
    }

    /** Spends `inputs` of what there is on `outputs` equal outputs; the last takes what does not divide. */
    method SendCount(inputs: nat, outputs: nat, payee: Hash, ghost all: seq<Input>) returns (r: Option<FullTx>)
      requires Valid() && all == All(seeds, View()) && Total(all) < U64_RANGE && inputs > 0 && outputs > 0
      modifies this`seedFrom, this`queue, this`utxos, this`balance
      ensures Valid() && (r.None? ==> View() == old(View()))
      ensures r.None? <==> |all| < inputs || (outputs > 1 && Total(all[..inputs]) / outputs == 0)
      ensures r.Some? ==>
        && r.value.inputs == all[..inputs] && View() == Taken(old(View()), inputs)
        && Total(all[..inputs]) < U64_RANGE
        && SharesOut(r.value.outputs, outputs, Total(all[..inputs]), payee)
      ensures r.Some? && Positive(Amounts(all)) ==> WellFormed(r.value)
    {
      ghost var f := View();
      var taken := TakeCount(inputs, outputs, all);
      if taken.None? {
        return None;
      }
      var (ins, total) := taken.value;
      var outs := MakeShares(outputs, total, payee);
      var tx := Sign(signer, FullTx(ins, outs, []));
      SharesWellFormed(seeds, f, inputs, outputs, total, payee, tx);
      return Some(tx);
    }
  }

  method MakePayment(amount: u64, payee: Hash, total: u64, change: Hash) returns (outs: seq<Output>)
    requires amount <= total
    ensures Pays(outs, amount, payee, total, change)
    ensures Sum(OutputValues(outs)) == total && (Positive(OutputValues(outs)) <==> amount > 0)
  {
    outs := [Output(payee, amount)];
    if total > amount {
      outs := outs + [Output(change, total - amount)];
    }
    PaySum(outs, amount, payee, total, change);
  }

  method MakeFan(count: nat, value: u64, payee: Hash, total: u64, change: Hash) returns (outs: seq<Output>)
    requires count * value <= total
    ensures FanPays(outs, count, value, payee, total, change)
    ensures count * value > 0 ==> outs != [] && Sum(OutputValues(outs)) == total
    ensures count * value > 0 && Positive(OutputValues(outs)) <==> count > 0 && value > 0
  {
    ghost var first := if total > count * value then [Output(change, total - count * value)] else [];
    outs := [];
    if total > count * value {
      outs := [Output(change, total - count * value)];
    }
    for i := 0 to count
      invariant outs == first + Repeat(i, Output(payee, value))
    {
      outs := outs + [Output(payee, value)];
    }
    if count > 0 {
      FanSum(outs, count, value, payee, total, change);
      Positives(count, value);
    } else {
      assert count * value == 0;
    }
  }

  method MakeShares(count: nat, total: u64, payee: Hash) returns (outs: seq<Output>)
    requires count > 0
    ensures SharesOut(outs, count, total, payee)
  {
    ShareBound(count, total);
    var share, left := total / count, total;
    outs := [];
    for i := 0 to count
      invariant i < count ==> outs == Repeat(i, Output(payee, share)) && left == total - i * share
      invariant i == count ==> SharesOut(outs, count, total, payee)
    {
      ShareLeft(count, total, i);
      var value := if i == count - 1 then left else share;
      left := left - value;
      outs := outs + [Output(payee, value)];
    }
  }

  lemma ShareLeft(count: nat, total: u64, i: nat)
    requires i < count
    ensures var share := total / count;
            share <= total - i * share && total - i * share < U64_RANGE && (i + 1) * share == i * share + share
  {
    var share := total / count;
    assert count * share <= total;
    Mono(i + 1, count, share);
    OneShare(i, share);
  }

  lemma Mono(a: nat, b: nat, s: nat)
    requires a <= b
    ensures a * s <= b * s
  {
    assert b * s == a * s + (b - a) * s;
  }

  lemma OneShare(i: nat, s: nat)
    ensures (i + 1) * s == i * s + s
  {
  }

  lemma {:induction false} IndexSize(q: seq<Input>)
    requires Distinct(Points(q))
    ensures |Index(q)| == |q|
  {
    if q != [] {
      var n := |q| - 1;
      assert Points(q[..n]) == Points(q)[..n];
      IndexSize(q[..n]);
      IndexKeys(q[..n]);
      assert forall k | 0 <= k < n :: Points(q)[k] != Points(q)[n];
      assert Index(q).Keys == Index(q[..n]).Keys + {q[n].prevout};
      assert |Index(q)| == |Index(q).Keys| && |Index(q[..n])| == |Index(q[..n]).Keys|;
    }
  }

  lemma PositiveTotal(q: seq<Input>, n: nat)
    requires 0 < n <= |q| && Positive(Amounts(q))
    ensures Total(q[..n]) > 0
  {
    assert q[..n] == q[..n - 1] + [q[n - 1]];
    TotalSnoc(q[..n - 1], q[n - 1]);
    assert Amounts(q)[n - 1] > 0;
  }

  lemma SharesWellFormed(s: Seeds, f: Funds, inputs: nat, outputs: nat, total: u64, payee: Hash, tx: FullTx)
    requires Consistent(s, f) && Total(All(s, f)) < U64_RANGE && outputs > 0 && 0 < inputs <= |All(s, f)|
    requires tx.inputs == All(s, f)[..inputs] && |tx.witnesses| == inputs && total == Total(tx.inputs)
    requires SharesOut(tx.outputs, outputs, total, payee) && (total / outputs > 0 || outputs == 1)
    ensures Positive(Amounts(All(s, f))) ==> WellFormed(tx)
  {
    if Positive(Amounts(All(s, f))) {
      PositiveTotal(All(s, f), inputs);
      ShareSum(tx.outputs, outputs, total, payee);
      SpendIsWellFormed(s, f, inputs, tx);
    }
  }

  lemma OneMore(all: seq<Input>, ins: seq<Input>)
    requires |ins| < |all| && ins == all[..|ins|]
    ensures var more := ins + [all[|ins|]];
            more == all[..|ins| + 1] && Total(more) == Total(ins) + all[|ins|].data.value <= Total(all)
  {
    var x := all[|ins|];
    assert all[..|ins| + 1] == ins + [x];
    TotalSnoc(ins, x);
    TotalPrefix(all, |ins| + 1);
  }

  /** The inputs of `tx` are the fewest that reach the amount, and exactly they have left the wallet. */
  ghost predicate Paid(s: Seeds, f: Funds, g: Funds, amount: nat, tx: FullTx)
    requires f.seedFrom <= f.seedTo
  {
    var n := Needed(All(s, f), amount, 0);
    && tx.inputs == All(s, f)[..n] && g == Taken(f, n)
    && Total(tx.inputs) >= amount && (n == 0 || Total(All(s, f)[..n - 1]) < amount)
    && (amount > 0 ==> Sum(OutputValues(tx.outputs)) == Total(tx.inputs))
  }

  lemma Positives(count: nat, value: nat)
    requires count > 0
    ensures count * value > 0 <==> value > 0
  {
    if value > 0 { assert count * value >= value; }
  }

  /** A signed transaction over selected inputs is well-formed exactly when its outputs are positive and
      something was asked for. */
  lemma Finish(s: Seeds, f: Funds, amount: nat, tx: FullTx)
    requires f.seedFrom <= f.seedTo && Total(All(s, f)) < U64_RANGE
    requires var n := Needed(All(s, f), amount, 0); tx.inputs == All(s, f)[..n] && |tx.witnesses| == n
    requires Total(tx.inputs) >= amount
    requires amount > 0 ==> tx.outputs != [] && Sum(OutputValues(tx.outputs)) == Total(tx.inputs)
    ensures Paid(s, f, Taken(f, |tx.inputs|), amount, tx)
    ensures Consistent(s, f) && Positive(Amounts(All(s, f))) ==>
      (WellFormed(tx) <==> amount > 0 && Positive(OutputValues(tx.outputs)))
  {
    var all := All(s, f);
    NeededIsLeast(all, amount, 0);
    assert Amounts([]) == [];
    assert all[..0] == [];
    if Consistent(s, f) && amount > 0 && Positive(Amounts(all)) && Positive(OutputValues(tx.outputs)) {
      SpendIsWellFormed(s, f, |tx.inputs|, tx);
    }
  }

  /** Seeds already taken and the queue are worth no more than everything; if all seeds are taken they are
      everything. */
  lemma Selected(s: Seeds, f: Funds, all: seq<Input>, ins: seq<Input>)
    requires f.seedFrom <= f.seedTo && all == All(s, f) && |ins| <= f.seedTo - f.seedFrom && ins == all[..|ins|]
    ensures Total(ins + f.queue) <= Total(all)
    ensures |ins| == f.seedTo - f.seedFrom ==> ins + f.queue == all
  {
    var k := f.seedTo - f.seedFrom;
    assert all == all[..k] + f.queue;
    TotalAppend(all[..k], f.queue);
    TotalAppend(ins, f.queue);
    TotalPrefix(all[..k], |ins|);
    assert all[..k][..|ins|] == ins;
  }

  /** What already reaches the amount is not extended. */
  lemma NoneExtra(all: seq<Input>, ins: seq<Input>, more: seq<Input>, amount: nat)
    requires Reaching(all, ins, amount) && Reaching(all, more, amount) && |ins| <= |more|
    ensures Total(ins) >= amount ==> more == ins
  {
    assert more[..|ins|] == ins;
    if |more| == |ins| { assert more[..|ins|] == more; }
  }

  /** A wallet that is saved and loaded into another one without seeds: keys, set and balance come back, the
      queue comes back sorted by out-point, and the loaded wallet is in order. */
  method Transfer(a: Wallet, b: Wallet)
    requires a != b && a.Valid() && |a.utxos| < U64_RANGE && b.seedFrom == b.seedTo
    modifies b
    ensures b.Valid() && b.keys == a.keys && b.utxos == a.utxos && b.balance == a.balance
    ensures multiset(b.queue) == multiset(a.queue) && (b.queue == a.queue <==> WalletFile.Sorted(a.queue))
  {
    KeyedByPoint(a.queue);
    var file, saved := a.Save();
    b.Load(file, saved);
    WalletFile.ReloadedIs(a.Stored(), b.Stored());
  }

  lemma {:induction false} KeyedByPoint(q: seq<Input>)
    ensures forall p | p in Index(q) :: Index(q)[p].prevout == p
  {
    if q != [] { KeyedByPoint(q[..|q| - 1]); }
  }
}

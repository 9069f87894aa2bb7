/** A wallet's unspent outputs: a queue to spend from, a set to look up in, and a running balance. Outputs
    that were seeded are not stored but made up on the fly, and are spent first. */
module Coins {
  import opened Common
  import opened Identifiers
  import opened Validation

  /** How the seeded outputs look. */
  datatype Seeds = Seeds(h: Digest, commitment: Hash, value: u64)

  /** The made-up transaction that pays seed `i` to the wallet. */
  function SeedTx(s: Seeds, i: u64): (tx: FullTx)
    ensures tx.Sized() && |tx.outputs| == 1
  {
    FullTx([Input(OutPoint(NoHash(), i), Output(NoHash(), s.value))], [Output(s.commitment, s.value)], [])
  }

  function SeedInput(s: Seeds, i: u64): Input { Spending(s.h, SeedTx(s, i), 0) }

  function SeedAt(s: Seeds): u64 -> Input { (i: u64) => SeedInput(s, i) }

  function SeedInputs(s: Seeds, seedFrom: u64, seedTo: u64): (ins: seq<Input>)
    requires seedFrom <= seedTo
    ensures |ins| == seedTo - seedFrom
  {
    seq(seedTo - seedFrom, k requires 0 <= k < seedTo - seedFrom => SeedAt(s)(seedFrom + k))
  }

  ghost function SeedMessages(s: Seeds, seedFrom: u64, seedTo: u64): iset<seq<byte>> {
    iset i: u64 | seedFrom <= i < seedTo :: SeedMessage(s, i)
  }

  /** No two of the made-up transactions are hashed to one id unless they are the same message. */
  ghost predicate SeedsCollisionFree(s: Seeds, seedFrom: u64, seedTo: u64) {
    InjectiveOn(s.h, SeedMessages(s, seedFrom, seedTo))
  }

  function SeedId(s: Seeds, i: u64): Hash { TxId(s.h, SeedTx(s, i)) }

  function SeedMessage(s: Seeds, i: u64): seq<byte> { InputsBytes(SeedTx(s, i)) + OutputsBytes(SeedTx(s, i)) }

  lemma SeedMessagesDiffer(s: Seeds, i: u64, j: u64)
    requires i != j
    ensures SeedMessage(s, i) != SeedMessage(s, j)
  {
    var a, b := SeedTx(s, i), SeedTx(s, j);
    assert a.inputs[0].prevout.index == i && b.inputs[0].prevout.index == j;
    TxMessageInjective(a, b);
  }

  lemma SeedPoint(s: Seeds, i: u64)
    ensures SeedInput(s, i).prevout == OutPoint(SeedId(s, i), 0)
  {
  }

  /** A seed spends the one output of its made-up transaction, which pays the wallet; its id in the unspent set is
      the one under which that output is stored. */
  lemma SeedSpends(s: Seeds, i: u64)
    ensures SeedInput(s, i).data == Output(s.commitment, s.value)
    ensures Compact(s.h, SeedTx(s, i)).outputs == [InputHash(s.h, SeedInput(s, i))]
  {
    UhsIdsAgree(s.h, SeedTx(s, i), 0);
  }

  lemma SeedIdsDiffer(s: Seeds, seedFrom: u64, seedTo: u64, i: u64, j: u64)
    requires SeedsCollisionFree(s, seedFrom, seedTo) && seedFrom <= i < j < seedTo
    ensures SeedInput(s, i).prevout != SeedInput(s, j).prevout
  {
    assert SeedMessage(s, i) in SeedMessages(s, seedFrom, seedTo);
    assert SeedMessage(s, j) in SeedMessages(s, seedFrom, seedTo);
    SeedMessagesDiffer(s, i, j);
    SeedPoint(s, i);
    SeedPoint(s, j);
  }

  /** No two of the inputs that `f` gives have one out-point. */
  ghost predicate Apart(f: u64 -> Input, first: u64, last: u64) {
    forall i: u64, j: u64 | first <= i < j < last :: f(i).prevout != f(j).prevout
  }

  lemma SeedsApart(s: Seeds, seedFrom: u64, seedTo: u64)
    requires SeedsCollisionFree(s, seedFrom, seedTo)
    ensures Apart(SeedAt(s), seedFrom, seedTo)
  {
    forall i: u64, j: u64 | seedFrom <= i < j < seedTo
      ensures SeedAt(s)(i).prevout != SeedAt(s)(j).prevout
    {
      SeedIdsDiffer(s, seedFrom, seedTo, i, j);
    }
  }

  lemma Listed(f: u64 -> Input, first: u64, last: u64, ins: seq<Input>)
    requires first <= last && ins == seq(last - first, k requires 0 <= k < last - first => f(first + k))
    ensures |ins| == last - first && forall k: nat | k < |ins| :: ins[k] == f(first + k)
  {
  }

  lemma SeedsListed(s: Seeds, seedFrom: u64, seedTo: u64)
    requires seedFrom <= seedTo
    ensures var ins := SeedInputs(s, seedFrom, seedTo); forall k: nat | k < |ins| :: ins[k] == SeedAt(s)(seedFrom + k)
  {
    Listed(SeedAt(s), seedFrom, seedTo, SeedInputs(s, seedFrom, seedTo));
  }

  lemma PointsApart(f: u64 -> Input, first: u64, last: u64, ins: seq<Input>)
    requires first <= last && Apart(f, first, last)
    requires |ins| == last - first && forall k: nat | k < |ins| :: ins[k] == f(first + k)
    ensures Distinct(Points(ins))
  {
    var p := Points(ins);
    forall i, j | 0 <= i < j < |p| ensures p[i] != p[j] {
      assert p[i] == f(first + i).prevout && p[j] == f(first + j).prevout;
    }
  }

  /** Seeds differ in the out-point that their made-up transaction spends, so their own out-points differ. */
  lemma SeedsDistinct(s: Seeds, seedFrom: u64, seedTo: u64)
    requires seedFrom <= seedTo && SeedsCollisionFree(s, seedFrom, seedTo)
    ensures Distinct(Points(SeedInputs(s, seedFrom, seedTo)))
  {
    SeedsApart(s, seedFrom, seedTo);
    SeedsListed(s, seedFrom, seedTo);
    PointsApart(SeedAt(s), seedFrom, seedTo, SeedInputs(s, seedFrom, seedTo));
  }

  /** What the wallet keeps in memory: a queue to spend from, a set to look up in, and the balance. */
  datatype Purse = Purse(queue: seq<Input>, utxos: map<OutPoint, Input>, balance: u64)

  datatype Funds = Funds(queue: seq<Input>, utxos: map<OutPoint, Input>, balance: u64, seedFrom: u64, seedTo: u64)
  {
    function Stored(): Purse { Purse(queue, utxos, balance) }
  }

  // ---------------------------------------------------------------- lists of inputs

  function Points(q: seq<Input>): (p: seq<OutPoint>)
    ensures |p| == |q|
  {
    seq(|q|, k requires 0 <= k < |q| => q[k].prevout)
  }

  function Amounts(q: seq<Input>): (v: seq<u64>)
    ensures |v| == |q|
  {
    seq(|q|, k requires 0 <= k < |q| => q[k].data.value)
  }

  function Total(q: seq<Input>): nat { Sum(Amounts(q)) }

  /** The set that holds a list; ordered by out-point, so one entry for each. */
  function Index(q: seq<Input>): map<OutPoint, Input> {
    if q == [] then map[] else Index(q[..|q| - 1])[q[|q| - 1].prevout := q[|q| - 1]]
  }

  /** Everything that can be spent, in the order in which it will be. */
  function All(s: Seeds, f: Funds): seq<Input>
    requires f.seedFrom <= f.seedTo
  {
    SeedInputs(s, f.seedFrom, f.seedTo) + f.queue
  }

  /** The queue is a permutation of the set and the balance is its sum, up to 64-bit wrap-around. */
  ghost predicate InStep(p: Purse) {
    && Distinct(Points(p.queue)) && p.utxos == Index(p.queue)
    && p.balance == Total(p.queue) % U64_RANGE
  }

  /** The wallet's invariant: nothing can be spent twice. */
  ghost predicate Consistent(s: Seeds, f: Funds) {
    f.seedFrom <= f.seedTo && InStep(f.Stored()) && Distinct(Points(All(s, f)))
  }

  lemma {:induction false} SumAppend(a: seq<u64>, b: seq<u64>)
    ensures Sum(a + b) == Sum(a) + Sum(b)
    decreases |b|
  {
    if b == [] {
      assert a + b == a;
    } else {
      var n := |b| - 1;
      SumAppend(a, b[..n]);
      assert (a + b)[..|a + b| - 1] == a + b[..n];
    }
  }

  lemma TotalAppend(a: seq<Input>, b: seq<Input>)
    ensures Total(a + b) == Total(a) + Total(b)
  {
    assert Amounts(a + b) == Amounts(a) + Amounts(b);
    SumAppend(Amounts(a), Amounts(b));
  }

  lemma TotalSnoc(a: seq<Input>, x: Input)
    ensures Total(a + [x]) == Total(a) + x.data.value
  {
    TotalAppend(a, [x]);
    assert Amounts([x])[..0] == [];
    assert Sum(Amounts([x])) == Sum([]) + x.data.value;
  }

  lemma {:induction false} IndexKeys(q: seq<Input>)
    ensures forall p :: p in Index(q) <==> p in Points(q)
  {
    if q != [] {
      var n := |q| - 1;
      IndexKeys(q[..n]);
      assert Points(q) == Points(q[..n]) + [q[n].prevout];
    }
  }

  lemma IndexSnoc(q: seq<Input>, x: Input)
    ensures Index(q + [x]) == Index(q)[x.prevout := x] && Points(q + [x]) == Points(q) + [x.prevout]
  {
    assert (q + [x])[..|q|] == q;
  }

  lemma {:induction false} IndexTail(q: seq<Input>)
    requires q != [] && Distinct(Points(q))
    ensures Index(q[1..]) == Index(q) - {q[0].prevout} && Points(q[1..]) == Points(q)[1..]
  {
    var n := |q| - 1;
    if n == 0 {
      assert q[1..] == [] && q[..0] == [];
    } else {
      var init := q[..n];
      assert Points(init) == Points(q)[..n];
      IndexTail(init);
      assert q[1..] == init[1..] + [q[n]];
      IndexSnoc(init[1..], q[n]);
      assert Points(q)[0] != Points(q)[n];
    }
  }

  lemma DistinctSlice(p: seq<OutPoint>, i: nat, j: nat)
    requires Distinct(p) && i <= j <= |p|
    ensures Distinct(p[i..j])
  {
  }

  // ---------------------------------------------------------------- what happens to the purse

  /** What is in the set already is left alone. */
  function AddOne(p: Purse, x: Input): Purse {
    if x.prevout in p.utxos then p
    else Purse(p.queue + [x], p.utxos[x.prevout := x], (p.balance + x.data.value) % U64_RANGE)
  }

  function Add(p: Purse, credits: seq<Input>): Purse {
    if credits == [] then p else AddOne(Add(p, credits[..|credits| - 1]), credits[|credits| - 1])
  }

  /** Debits leave the set and the balance; they do not leave the queue. */
  function Strike(p: Purse, debits: seq<Input>): Purse {
    Purse(p.queue, Debit(p.utxos, debits), DebitBalance(p.utxos, p.balance, debits))
  }

  function PopOne(p: Purse): Purse
    requires p.queue != []
  {
    Purse(p.queue[1..], p.utxos - {p.queue[0].prevout}, Sub64(p.balance, p.queue[0].data.value))
  }

  /** The first `n` of the queue leave. */
  function Pop(p: Purse, n: nat): (r: Purse)
    requires n <= |p.queue|
    ensures r.queue == p.queue[n..]
  {
    if n == 0 then p else PopOne(Pop(p, n - 1))
  }

  lemma AddOneInStep(p: Purse, x: Input)
    requires InStep(p)
    ensures InStep(AddOne(p, x)) && AddOne(p, x).queue == CreditOne(p.queue, x)
  {
    IndexKeys(p.queue);
    if x.prevout !in p.utxos {
      IndexSnoc(p.queue, x);
      TotalSnoc(p.queue, x);
    }
  }

  lemma {:induction false} AddInStep(p: Purse, credits: seq<Input>)
    requires InStep(p)
    ensures InStep(Add(p, credits)) && Add(p, credits).queue == Credit(p.queue, credits)
  {
    if credits != [] {
      var n := |credits| - 1;
      AddInStep(p, credits[..n]);
      AddOneInStep(Add(p, credits[..n]), credits[n]);
    }
  }

  /** After a debit queue, set and balance are in step exactly when none of the debits was in the set. */
  lemma StrikeIff(p: Purse, debits: seq<Input>)
    requires InStep(p)
    ensures InStep(Strike(p, debits)) <==> forall d | d in debits :: d.prevout !in p.utxos
    ensures (forall d | d in debits :: d.prevout !in p.utxos) ==> Strike(p, debits) == p
  {
    DebitKeepsIff(p.queue, debits);
    if forall d | d in debits :: d.prevout !in p.utxos {
      DebitNothing(p.utxos, p.balance, debits);
    }
  }

  lemma PopOneInStep(p: Purse)
    requires InStep(p) && p.queue != []
    ensures InStep(PopOne(p))
  {
    IndexTail(p.queue);
    TotalCons(p.queue);
    var q := Points(p.queue);
    DistinctSlice(q, 1, |q|);
    assert q[1..|q|] == q[1..];
  }

  lemma {:induction false} PopInStep(p: Purse, n: nat)
    requires InStep(p) && n <= |p.queue|
    ensures InStep(Pop(p, n))
  {
    if n > 0 {
      PopInStep(p, n - 1);
      PopOneInStep(Pop(p, n - 1));
    }
  }

  lemma TotalCons(q: seq<Input>)
    requires q != []
    ensures Total(q) == q[0].data.value + Total(q[1..])
    ensures forall b: u64 | b == Total(q) % U64_RANGE :: Sub64(b, q[0].data.value) == Total(q[1..]) % U64_RANGE
  {
    TotalAppend([q[0]], q[1..]);
    TotalSnoc([], q[0]);
    assert [] + [q[0]] == [q[0]];
    assert [q[0]] + q[1..] == q;
  }

  // ---------------------------------------------------------------- crediting and debiting

  function CreditOne(q: seq<Input>, x: Input): seq<Input> {
    if x.prevout in Points(q) then q else q + [x]
  }

  /** Credits that are not there yet join the end of the queue. */
  function Credit(q: seq<Input>, credits: seq<Input>): seq<Input> {
    if credits == [] then q else CreditOne(Credit(q, credits[..|credits| - 1]), credits[|credits| - 1])
  }

  /** Debits leave the set and the balance; they do not leave the queue. */
  function Debit(u: map<OutPoint, Input>, debits: seq<Input>): map<OutPoint, Input> {
    if debits == [] then u else Debit(u, debits[..|debits| - 1]) - {debits[|debits| - 1].prevout}
  }

  function DebitBalance(u: map<OutPoint, Input>, balance: u64, debits: seq<Input>): u64 {
    if debits == [] then balance
    else
      var n := |debits| - 1;
      if debits[n].prevout in Debit(u, debits[..n])
      then Sub64(DebitBalance(u, balance, debits[..n]), debits[n].data.value)
      else DebitBalance(u, balance, debits[..n])
  }

  lemma {:induction false} DebitNothing(u: map<OutPoint, Input>, balance: u64, debits: seq<Input>)
    requires forall d | d in debits :: d.prevout !in u
    ensures Debit(u, debits) == u && DebitBalance(u, balance, debits) == balance
  {
    if debits != [] {
      var n := |debits| - 1;
      DebitNothing(u, balance, debits[..n]);
      assert debits[n] in debits;
    }
  }

  lemma {:induction false} CreditKeeps(q: seq<Input>, credits: seq<Input>)
    requires Distinct(Points(q))
    ensures Distinct(Points(Credit(q, credits))) && |q| <= |Credit(q, credits)| && q == Credit(q, credits)[..|q|]
  {
    if credits != [] {
      var n := |credits| - 1;
      CreditKeeps(q, credits[..n]);
      IndexSnoc(Credit(q, credits[..n]), credits[n]);
    }
  }

  lemma {:induction false} DebitIs(u: map<OutPoint, Input>, debits: seq<Input>)
    ensures Debit(u, debits) == u - (set d | d in debits :: d.prevout)
  {
    if debits != [] {
      var n := |debits| - 1;
      DebitIs(u, debits[..n]);
      assert debits == debits[..n] + [debits[n]];
    }
  }

  /** The set still holds the queue after a debit exactly when none of the debits was in it. */
  lemma DebitKeepsIff(q: seq<Input>, debits: seq<Input>)
    requires Distinct(Points(q))
    ensures Debit(Index(q), debits) == Index(q) <==> forall d | d in debits :: d.prevout !in Index(q)
  {
    DebitIs(Index(q), debits);
    var gone := set d | d in debits :: d.prevout;
    if d :| d in debits && d.prevout in Index(q) {
      assert d.prevout in gone;
      assert d.prevout !in Index(q) - gone;
    }
    if forall d | d in debits :: d.prevout !in Index(q) {
      assert Index(q) - gone == Index(q);
    }
  }

  /** The outputs of `tx` that the wallet has a key for, as inputs. */
  function OwnOutputs(h: Digest, keys: set<Hash>, tx: FullTx, n: nat): seq<Input>
    requires tx.Sized() && n <= |tx.outputs|
  {
    if n == 0 then []
    else
      OwnOutputs(h, keys, tx, n - 1) + if tx.outputs[n - 1].commitment in keys then [Spending(h, tx, n - 1)] else []
  }

  /** `i` spends one of the first `n` outputs, and the wallet has the key. */
  ghost predicate Owns(h: Digest, keys: set<Hash>, tx: FullTx, n: nat, i: Input)
    requires tx.Sized() && n <= |tx.outputs|
  {
    exists k: nat :: k < n && tx.outputs[k].commitment in keys && i == Spending(h, tx, k)
  }

  /** Every output that the wallet has a key for is credited, and no other. */
  lemma {:induction false} OwnExactly(h: Digest, keys: set<Hash>, tx: FullTx, n: nat, i: Input)
    requires tx.Sized() && n <= |tx.outputs|
    ensures i in OwnOutputs(h, keys, tx, n) <==> Owns(h, keys, tx, n, i)
  {
    if n > 0 {
      OwnExactly(h, keys, tx, n - 1, i);
      var less := OwnOutputs(h, keys, tx, n - 1);
      if tx.outputs[n - 1].commitment in keys {
        assert i in less + [Spending(h, tx, n - 1)] <==> i in less || i == Spending(h, tx, n - 1);
      }
    }
  }

  /** They come in the order of the outputs. */
  ghost predicate InOrder(id: Hash, n: nat, own: seq<Input>) {
    && (forall k | 0 <= k < |own| :: own[k].prevout.txId == id && own[k].prevout.index < n)
    && (forall k, l | 0 <= k < l < |own| :: own[k].prevout.index < own[l].prevout.index)
  }

  lemma {:induction false} OwnInOrder(h: Digest, keys: set<Hash>, tx: FullTx, n: nat)
    requires tx.Sized() && n <= |tx.outputs|
    ensures InOrder(TxId(h, tx), n, OwnOutputs(h, keys, tx, n))
  {
    if n > 0 {
      OwnInOrder(h, keys, tx, n - 1);
      var less, i := OwnOutputs(h, keys, tx, n - 1), Spending(h, tx, n - 1);
      NextInOrder(TxId(h, tx), n, less, i);
      assert OwnOutputs(h, keys, tx, n) == less + if tx.outputs[n - 1].commitment in keys then [i] else [];
    }
  }

  lemma NextInOrder(id: Hash, n: nat, own: seq<Input>, i: Input)
    requires n > 0 && InOrder(id, n - 1, own) && i.prevout.txId == id && i.prevout.index == n - 1
    ensures InOrder(id, n, own + [i]) && InOrder(id, n, own + [])
  {
    assert own + [] == own;
  }

  lemma OwnDistinct(h: Digest, keys: set<Hash>, tx: FullTx, n: nat)
    requires tx.Sized() && n <= |tx.outputs|
    ensures var own := OwnOutputs(h, keys, tx, n);
            && Distinct(Points(own))
            && forall k | 0 <= k < |own| :: own[k].prevout.txId == TxId(h, tx) && own[k].prevout.index < n
  {
    OwnInOrder(h, keys, tx, n);
    var own := OwnOutputs(h, keys, tx, n);
    forall k, l | 0 <= k < l < |own| ensures Points(own)[k] != Points(own)[l] { }
  }

  /** The places of the outputs that the wallet has keys for. */
  function PaidBack(h: Digest, keys: set<Hash>, tx: FullTx): set<OutPoint>
    requires tx.Sized()
  {
    set k: nat | k < |tx.outputs| && tx.outputs[k].commitment in keys :: OutPoint(TxId(h, tx), k)
  }

  lemma OwnIsPaidBack(h: Digest, keys: set<Hash>, tx: FullTx)
    requires tx.Sized()
    ensures var own := OwnOutputs(h, keys, tx, |tx.outputs|);
            forall p :: p in Points(own) <==> p in PaidBack(h, keys, tx)
  {
    var own := OwnOutputs(h, keys, tx, |tx.outputs|);
    forall p ensures p in Points(own) <==> p in PaidBack(h, keys, tx) {
      if p in Points(own) {
        var k :| 0 <= k < |own| && Points(own)[k] == p;
        OwnExactly(h, keys, tx, |tx.outputs|, own[k]);
      }
      if p in PaidBack(h, keys, tx) {
        var k: nat :| k < |tx.outputs| && tx.outputs[k].commitment in keys && p == OutPoint(TxId(h, tx), k);
        var i := Spending(h, tx, k);
        OwnExactly(h, keys, tx, |tx.outputs|, i);
        var l :| 0 <= l < |own| && own[l] == i;
        assert Points(own)[l] == p;
      }
    }
  }

  /** What is credited and what is given away make up all the outputs. */
  lemma {:induction false} OwnTotal(h: Digest, keys: set<Hash>, tx: FullTx, n: nat)
    requires tx.Sized() && n <= |tx.outputs|
    ensures Total(OwnOutputs(h, keys, tx, n)) + Given(tx.outputs[..n], keys) == Sum(OutputValues(tx.outputs[..n]))
  {
    if n == 0 {
      assert tx.outputs[..n] == [];
    } else {
      OwnTotal(h, keys, tx, n - 1);
      OneMoreGiven(tx.outputs, keys, n);
      var less := OwnOutputs(h, keys, tx, n - 1);
      assert less + [] == less;
      TotalSnoc(less, Spending(h, tx, n - 1));
    }
  }

  lemma OneMoreGiven(outs: seq<Output>, keys: set<Hash>, n: nat)
    requires 0 < n <= |outs|
    ensures var o := outs[n - 1];
            && Given(outs[..n], keys) == Given(outs[..n - 1], keys) + (if o.commitment in keys then 0 else o.value)
            && Sum(OutputValues(outs[..n])) == Sum(OutputValues(outs[..n - 1])) + o.value
  {
    var first := outs[..n];
    assert first[..n - 1] == outs[..n - 1] && first[n - 1] == outs[n - 1];
    assert OutputValues(first)[..n - 1] == OutputValues(first[..n - 1]);
  }

  // ---------------------------------------------------------------- selecting

  /** How many of `all` it takes to reach `amount`; all of them if it cannot be reached. */
  function Needed(all: seq<Input>, amount: nat, k: nat): (n: nat)
    requires k <= |all|
    ensures k <= n <= |all|
    decreases |all| - k
  {
    if k == |all| || Total(all[..k]) >= amount then k else Needed(all, amount, k + 1)
  }

  lemma {:induction false} NeededIsLeast(all: seq<Input>, amount: nat, k: nat)
    requires k <= |all|
    ensures var n := Needed(all, amount, k);
            && (n < |all| ==> Total(all[..n]) >= amount)
            && (forall j | k <= j < n :: Total(all[..j]) < amount)
    decreases |all| - k
  {
    if k < |all| && Total(all[..k]) < amount {
      NeededIsLeast(all, amount, k + 1);
    }
  }

  /** How many of the first `n` are seeds. */
  function SeedsTaken(f: Funds, n: nat): (k: nat)
    requires f.seedFrom <= f.seedTo
    ensures k <= n && k <= f.seedTo - f.seedFrom && (k == n || k == f.seedTo - f.seedFrom)
  {
    if n <= f.seedTo - f.seedFrom then n else f.seedTo - f.seedFrom
  }

  function With(f: Funds, p: Purse, seedFrom: u64): Funds {
    Funds(p.queue, p.utxos, p.balance, seedFrom, f.seedTo)
  }

  /** The first `n` of `all`, and no fewer would have reached `amount`. */
  ghost predicate Reaching(all: seq<Input>, ins: seq<Input>, amount: nat) {
    |ins| <= |all| && ins == all[..|ins|] && forall j | 0 <= j < |ins| :: Total(ins[..j]) < amount
  }

  lemma ReachFurther(all: seq<Input>, ins: seq<Input>, amount: nat)
    requires Reaching(all, ins, amount) && |ins| < |all| && Total(ins) < amount
    ensures var more := ins + [all[|ins|]];
            Reaching(all, more, amount) && Total(more) == Total(ins) + all[|ins|].data.value <= Total(all)
  {
    var x := all[|ins|];
    var more := ins + [x];
    assert all[..|ins| + 1] == more;
    forall j | 0 <= j < |more| ensures Total(more[..j]) < amount {
      assert more[..j] == ins[..j];
      if j == |ins| { assert ins[..j] == ins; }
    }
    TotalSnoc(ins, x);
    TotalPrefix(all, |ins| + 1);
  }

  lemma ReachedIsNeeded(all: seq<Input>, ins: seq<Input>, amount: nat)
    requires Reaching(all, ins, amount) && (|ins| == |all| || Total(ins) >= amount)
    ensures |ins| == Needed(all, amount, 0)
  {
    NeededIsLeast(all, amount, 0);
    var n := Needed(all, amount, 0);
    var m := if n < |ins| then n else |ins|;
    assert ins[..m] == all[..m];
  }

  /** `f` after the first `n` of everything spendable have been taken out. */
  function Taken(f: Funds, n: nat): Funds
    requires f.seedFrom <= f.seedTo && n <= f.seedTo - f.seedFrom + |f.queue|
  {
    With(f, Pop(f.Stored(), n - SeedsTaken(f, n)), f.seedFrom + SeedsTaken(f, n))
  }

  lemma AllTaken(s: Seeds, f: Funds, n: nat)
    requires f.seedFrom <= f.seedTo && n <= f.seedTo - f.seedFrom + |f.queue|
    ensures All(s, Taken(f, n)) == All(s, f)[n..]
  {
    var a, b := All(s, Taken(f, n)), All(s, f)[n..];
    assert |a| == |b|;
    forall k | 0 <= k < |a| ensures a[k] == b[k] {
    }
  }

  /** Taking from the front keeps the wallet consistent. */
  lemma TakenConsistent(s: Seeds, f: Funds, n: nat)
    requires Consistent(s, f) && n <= f.seedTo - f.seedFrom + |f.queue|
    ensures Consistent(s, Taken(f, n))
  {
    AllTaken(s, f, n);
    var all := All(s, f);
    assert Points(all[n..]) == Points(all)[n..|all|];
    DistinctSlice(Points(all), n, |all|);
    PopInStep(f.Stored(), n - SeedsTaken(f, n));
  }

  // ---------------------------------------------------------------- well-formed spends

  /** Stored and seeded values are positive, and all of them together fit in 64 bits. */
  predicate Spendable(s: Seeds, f: Funds)
    requires f.seedFrom <= f.seedTo
  {
    Positive(Amounts(All(s, f))) && Total(All(s, f)) < U64_RANGE
  }

  lemma SpendIsWellFormed(s: Seeds, f: Funds, n: nat, tx: FullTx)
    requires Consistent(s, f) && Spendable(s, f) && 0 < n <= |All(s, f)|
    requires tx.inputs == All(s, f)[..n] && |tx.witnesses| == n
    requires tx.outputs != [] && Positive(OutputValues(tx.outputs))
    requires Sum(OutputValues(tx.outputs)) == Total(tx.inputs)
    ensures WellFormed(tx)
  {
    var all := All(s, f);
    assert Prevouts(tx) == Points(all)[0..n];
    DistinctSlice(Points(all), 0, n);
    assert InputValues(tx) == Amounts(tx.inputs) == Amounts(all)[..n];
    TotalPrefix(all, n);
  }

  lemma TotalPrefix(all: seq<Input>, n: nat)
    requires n <= |all|
    ensures Total(all[..n]) <= Total(all)
  {
    TotalAppend(all[..n], all[n..]);
    assert all == all[..n] + all[n..];
  }

  // ---------------------------------------------------------------- who is paid

  /** What goes to commitments that are not among `keys`. */
  function Given(outs: seq<Output>, keys: set<Hash>): nat {
    if outs == [] then 0
    else
      var n := |outs| - 1;
      Given(outs[..n], keys) + if outs[n].commitment in keys then 0 else outs[n].value
  }

  lemma {:induction false} GivenAppend(a: seq<Output>, b: seq<Output>, keys: set<Hash>)
    ensures Given(a + b, keys) == Given(a, keys) + Given(b, keys)
    decreases |b|
  {
    if b == [] {
      assert a + b == a;
    } else {
      var n := |b| - 1;
      GivenAppend(a, b[..n], keys);
      assert (a + b)[..|a| + n] == a + b[..n];
    }
  }

  lemma {:induction false} GivenAll(outs: seq<Output>, keys: set<Hash>)
    ensures (forall k | 0 <= k < |outs| :: outs[k].commitment !in keys) ==> Given(outs, keys) == Sum(OutputValues(outs))
    ensures (forall k | 0 <= k < |outs| :: outs[k].commitment in keys) ==> Given(outs, keys) == 0
  {
    if outs != [] {
      var n := |outs| - 1;
      GivenAll(outs[..n], keys);
      assert OutputValues(outs)[..n] == OutputValues(outs[..n]);
    }
  }

  /** The payee gets the amount. What is left over, if anything, comes back. */
  predicate Pays(outs: seq<Output>, amount: u64, payee: Hash, total: u64, change: Hash) {
    && outs != [] && outs[0] == Output(payee, amount)
    && (if total > amount then |outs| == 2 && outs[1] == Output(change, total - amount) else |outs| == 1)
  }

  lemma PaySum(outs: seq<Output>, amount: u64, payee: Hash, total: u64, change: Hash)
    requires amount <= total && Pays(outs, amount, payee, total, change)
    ensures Sum(OutputValues(outs)) == total && (Positive(OutputValues(outs)) <==> amount > 0)
  {
    var v := OutputValues(outs);
    assert v[0] == amount;
    SumOne(amount);
    if total > amount {
      assert v == [amount] + [total - amount];
      SumAppend([amount], [total - amount]);
      SumOne(total - amount);
    } else {
      assert v == [amount];
    }
  }

  /** A payment to someone else gives away the amount and no more. */
  lemma PayGiven(outs: seq<Output>, amount: u64, payee: Hash, total: u64, change: Hash, keys: set<Hash>)
    requires amount <= total && Pays(outs, amount, payee, total, change)
    requires payee !in keys && (total > amount ==> change in keys)
    ensures Given(outs, keys) == amount
  {
    assert outs == [outs[0]] + outs[1..];
    GivenAppend([outs[0]], outs[1..], keys);
    GivenAll(outs[1..], keys);
    assert Given([outs[0]], keys) == Given([outs[0]][..0], keys) + amount;
  }

  lemma SumOne(x: u64)
    ensures Sum([x]) == x
  {
    assert [x][..0] == [];
    assert Sum([]) == 0;
  }

  function Repeat(n: nat, out: Output): (outs: seq<Output>)
    ensures |outs| == n
  {
    seq(n, _ => out)
  }

  lemma {:induction false} RepeatSum(n: nat, out: Output)
    ensures Sum(OutputValues(Repeat(n, out))) == n * out.value
  {
    if n > 0 {
      RepeatSum(n - 1, out);
      var v := OutputValues(Repeat(n, out));
      assert v[..n - 1] == OutputValues(Repeat(n - 1, out));
      assert n * out.value == (n - 1) * out.value + out.value;
    }
  }

  /** What is left over, if anything, comes back, and then there are `count` payments of `value`. */
  predicate FanPays(outs: seq<Output>, count: nat, value: u64, payee: Hash, total: u64, change: Hash)
    requires count * value <= total
  {
    var rest := total - count * value;
    if rest > 0 then |outs| == count + 1 && outs[0] == Output(change, rest) && AllAre(outs[1..], Output(payee, value))
    else |outs| == count && AllAre(outs, Output(payee, value))
  }

  predicate AllAre(outs: seq<Output>, out: Output) { forall k | 0 <= k < |outs| :: outs[k] == out }

  lemma FanSum(outs: seq<Output>, count: nat, value: u64, payee: Hash, total: u64, change: Hash)
    requires count * value <= total && count > 0 && FanPays(outs, count, value, payee, total, change)
    ensures Sum(OutputValues(outs)) == total && (Positive(OutputValues(outs)) <==> value > 0)
  {
    var many := Repeat(count, Output(payee, value));
    RepeatSum(count, Output(payee, value));
    assert OutputValues(outs)[|outs| - 1] == value;
    if total > count * value {
      var rest := total - count * value;
      assert outs[1..] == many;
      assert OutputValues(outs) == [rest] + OutputValues(many);
      SumAppend([rest], OutputValues(many));
      SumOne(rest);
    } else {
      assert outs == many;
    }
  }

  lemma FanGiven(outs: seq<Output>, count: nat, value: u64, payee: Hash, total: u64, change: Hash, keys: set<Hash>)
    requires count * value <= total && FanPays(outs, count, value, payee, total, change)
    requires payee !in keys && (total > count * value ==> change in keys)
    ensures Given(outs, keys) == count * value
  {
    var many := Repeat(count, Output(payee, value));
    RepeatSum(count, Output(payee, value));
    GivenAll(many, keys);
    if total > count * value {
      assert outs == [outs[0]] + many;
      GivenAppend([outs[0]], many, keys);
      GivenAll([outs[0]], keys);
    } else {
      assert outs == many;
    }
  }

  /** Equal shares, all to the payee, and what does not divide goes to the last. */
  predicate SharesOut(outs: seq<Output>, count: nat, total: u64, payee: Hash)
    requires count > 0
  {
    && |outs| == count && AllAre(outs[..count - 1], Output(payee, total / count))
    && outs[count - 1] == Output(payee, LastShare(count, total))
  }

  function LastShare(count: nat, total: u64): (r: u64)
    requires count > 0
    ensures r == total - (count - 1) * (total / count) && r >= total / count
  {
    ShareBound(count, total);
    total - (count - 1) * (total / count)
  }

  lemma ShareBound(count: nat, total: u64)
    requires count > 0
    ensures (count - 1) * (total / count) + total / count <= total
  {
    assert (count - 1) * (total / count) + total / count == count * (total / count);
  }

  lemma ShareSum(outs: seq<Output>, count: nat, total: u64, payee: Hash)
    requires count > 0 && SharesOut(outs, count, total, payee)
    ensures Sum(OutputValues(outs)) == total
    ensures Positive(OutputValues(outs)) <==> total > 0 && (total / count > 0 || count == 1)
  {
    ShareBound(count, total);
    var share := total / count;
    var last := LastShare(count, total);
    var many := Repeat(count - 1, Output(payee, share));
    var v := OutputValues(outs);
    RepeatSum(count - 1, Output(payee, share));
    assert outs == many + [Output(payee, last)];
    assert v == OutputValues(many) + [last];
    SumAppend(OutputValues(many), [last]);
    SumOne(last);
    if count > 1 {
      assert v[0] == share;
    } else {
      assert v[0] == last;
    }
  }

  /** All of it is given away, or nothing, depending on whose key the payee has. */
  lemma ShareGiven(outs: seq<Output>, count: nat, total: u64, payee: Hash, keys: set<Hash>)
    requires count > 0 && SharesOut(outs, count, total, payee)
    ensures Given(outs, keys) == if payee in keys then 0 else total
  {
    ShareSum(outs, count, total, payee);
    forall k | 0 <= k < |outs| ensures outs[k].commitment == payee {
      if k < count - 1 { assert outs[..count - 1][k] == outs[k]; }
    }
    GivenAll(outs, keys);
  }
}

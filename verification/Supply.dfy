/** How much money there is. The unspent hash set holds digests only; the value behind a digest is the
    value of the output it was computed from. */
module Supply {
  import opened Codec
  import opened Common
  import opened Identifiers
  import opened Validation
  import opened Ledger
  import opened Settlement
  import opened Safety
  import opened Theorems
  import FrontEnd

  // ---------------------------------------------------------------- totals

  type Valuation = Hash -> nat

  ghost function Total(v: Valuation, u: set<Hash>): nat {
    if u == {} then 0
    else
      var x :| x in u;
      v(x) + Total(v, u - {x})
  }

  function SumOf(v: Valuation, xs: seq<Hash>): nat {
    if xs == [] then 0 else SumOf(v, xs[..|xs| - 1]) + v(xs[|xs| - 1])
  }

  lemma {:induction false} TotalWithout(v: Valuation, u: set<Hash>, y: Hash)
    requires y in u
    ensures Total(v, u) == v(y) + Total(v, u - {y})
    decreases |u|
  {
    var x :| x in u && Total(v, u) == v(x) + Total(v, u - {x});
    if x != y {
      TotalWithout(v, u - {x}, y);
      TotalWithout(v, u - {y}, x);
      assert u - {x} - {y} == u - {y} - {x};
    }
  }

  lemma {:induction false} TotalUnion(v: Valuation, a: set<Hash>, b: set<Hash>)
    requires a !! b
    ensures Total(v, a + b) == Total(v, a) + Total(v, b)
    decreases |b|
  {
    if b == {} {
      assert a + b == a;
    } else {
      var y :| y in b;
      TotalWithout(v, a + b, y);
      TotalWithout(v, b, y);
      TotalUnion(v, a, b - {y});
      assert a + b - {y} == a + (b - {y});
    }
  }

  lemma {:induction false} TotalOfSeq(v: Valuation, xs: seq<Hash>)
    requires Distinct(xs)
    ensures Total(v, Members(xs)) == SumOf(v, xs)
  {
    if xs != [] {
      var init, y := xs[..|xs| - 1], xs[|xs| - 1];
      TotalOfSeq(v, init);
      TotalWithout(v, Members(xs), y);
      assert Members(xs) - {y} == Members(init);
    }
  }

  /** A transaction with distinct, unspent inputs and new, distinct outputs moves value, no more. */
  lemma ApplyTotal(v: Valuation, u: set<Hash>, tx: CompactTx)
    requires tx.InputSet() <= u && tx.OutputSet() !! u
    requires Distinct(tx.inputs) && Distinct(tx.outputs)
    ensures Total(v, ApplyTx(u, tx)) + SumOf(v, tx.inputs) == Total(v, u) + SumOf(v, tx.outputs)
  {
    TotalOfSeq(v, tx.inputs);
    TotalOfSeq(v, tx.outputs);
    assert Members(tx.inputs) == tx.InputSet() && Members(tx.outputs) == tx.OutputSet();
    var rest := u - tx.InputSet();
    TotalUnion(v, rest, tx.InputSet());
    TotalUnion(v, rest, tx.OutputSet());
    assert rest + tx.InputSet() == u;
    assert rest + tx.OutputSet() == ApplyTx(u, tx);
  }

  // ---------------------------------------------------------------- the value behind an id

  ghost predicate StandsFor(h: Digest, b: Book, x: Hash, i: Input)
    requires AllSized(b)
  {
    Known(h, b, i) && InputHash(h, i) == x
  }

  ghost function ValueOf(h: Digest, b: Book, x: Hash): nat
    requires AllSized(b)
  {
    if exists i :: StandsFor(h, b, x, i) then
      var i :| StandsFor(h, b, x, i);
      i.data.value
    else 0
  }

  ghost function Values(h: Digest, b: Book): Valuation
    requires AllSized(b)
  {
    x => ValueOf(h, b, x)
  }

  lemma ValueIs(h: Digest, b: Book, i: Input)
    requires CollisionFree(h, b) && Known(h, b, i)
    ensures Values(h, b)(InputHash(h, i)) == i.data.value
  {
    assert StandsFor(h, b, InputHash(h, i), i);
    forall j | StandsFor(h, b, InputHash(h, i), j) ensures j == i {
      InputHashInjective(h, b, i, j);
    }
  }

  lemma {:induction false} SumsAgree(v: Valuation, xs: seq<Hash>, values: seq<u64>)
    requires |xs| == |values| && forall k | 0 <= k < |xs| :: v(xs[k]) == values[k]
    ensures SumOf(v, xs) == Sum(values)
  {
    if xs != [] {
      var n := |xs| - 1;
      SumsAgree(v, xs[..n], values[..n]);
    }
  }

  /** The ids of a transaction are worth what its inputs and outputs say. */
  lemma TxValues(h: Digest, b: Book, t: FullTx)
    requires CollisionFree(h, b) && t in b.txs
    ensures SumOf(Values(h, b), Compact(h, t).inputs) == Sum(InputValues(t))
    ensures SumOf(Values(h, b), Compact(h, t).outputs) == Sum(OutputValues(t.outputs))
  {
    var c, v := Compact(h, t), Values(h, b);
    forall k | 0 <= k < |c.inputs| ensures v(c.inputs[k]) == InputValues(t)[k] {
      InputPreimage(h, b, t, k);
      ValueIs(h, b, t.inputs[k]);
    }
    forall k | 0 <= k < |c.outputs| ensures v(c.outputs[k]) == OutputValues(t.outputs)[k] {
      OutputPreimage(h, b, t, k);
      ValueIs(h, b, Spending(h, t, k));
    }
    SumsAgree(v, c.inputs, InputValues(t));
    SumsAgree(v, c.outputs, OutputValues(t.outputs));
  }

  // ---------------------------------------------------------------- histories

  /** `c` is the compact form of a transaction of the book that is a mint or passed the checks. */
  ghost predicate Origin(h: Digest, b: Book, w: WitnessCheck, c: CompactTx, t: FullTx)
    requires AllSized(b)
  {
    && t in b.txs && c.(attestations := map[]) == Compact(h, t)
    && (c.Mint() || Acceptable(w, t))
  }

  ghost predicate Backed(h: Digest, b: Book, w: WitnessCheck, c: CompactTx)
    requires AllSized(b)
  {
    exists t :: Origin(h, b, w, c, t)
  }

  function Minted(v: Valuation, hist: seq<CompactTx>): nat {
    if hist == [] then 0
    else
      var n := |hist| - 1;
      Minted(v, hist[..n]) + if hist[n].Mint() then SumOf(v, hist[n].outputs) else 0
  }

  lemma DistinctInputs(t: FullTx)
    requires Distinct(Prevouts(t))
    ensures Distinct(t.inputs)
  {
    forall k, l | 0 <= k < l < |t.inputs| ensures t.inputs[k] != t.inputs[l] {
      assert Prevouts(t)[k] != Prevouts(t)[l];
    }
  }

  lemma BackedIsFresh(h: Digest, b: Book, w: WitnessCheck, c: CompactTx)
    requires CollisionFree(h, b) && Backed(h, b, w, c)
    ensures Distinct(c.inputs) && Distinct(c.outputs) && c.OutputSet() !! GenesisIds(h, b)
  {
    var t :| Origin(h, b, w, c, t);
    OutputIdsFresh(h, b, t);
    if !c.Mint() {
      DistinctInputs(t);
      InputIdsDistinct(h, b, t);
    }
  }

  lemma BackedMoves(h: Digest, b: Book, w: WitnessCheck, c: CompactTx)
    requires CollisionFree(h, b) && Backed(h, b, w, c)
    ensures SumOf(Values(h, b), c.outputs) ==
            SumOf(Values(h, b), c.inputs) + if c.Mint() then SumOf(Values(h, b), c.outputs) else 0
  {
    var t :| Origin(h, b, w, c, t);
    TxValues(h, b, t);
  }

  /** The total behind the UHS of any history is the genesis total and what was minted. */
  lemma {:induction false} Conservation(h: Digest, b: Book, w: WitnessCheck, hist: seq<CompactTx>)
    requires CollisionFree(h, b)
    requires forall c | c in hist :: Backed(h, b, w, c)
    requires Sound(GenesisIds(h, b), hist) && Fresh(GenesisIds(h, b), hist)
    ensures var v := Values(h, b);
            Total(v, Uhs(GenesisIds(h, b), hist)) == Total(v, GenesisIds(h, b)) + Minted(v, hist)
  {
    if hist != [] {
      var n := |hist| - 1;
      var init, c, g := hist[..n], hist[n], GenesisIds(h, b);
      Conservation(h, b, w, init);
      UhsIsCreatedMinusSpent(g, init);
      assert Backed(h, b, w, c);
      BackedIsFresh(h, b, w, c);
      BackedMoves(h, b, w, c);
      ApplyTotal(Values(h, b), Uhs(g, init), c);
    }
  }

  // ---------------------------------------------------------------- whole runs

  /** The sentinels outside `bad`, which is smaller than the threshold, sign only what passed their checks, and the
      set starts from the book's genesis outputs. The keys in `bad` may sign anything, and others may sign too. */
  ghost predicate Diligent(h: Digest, b: Book, w: WitnessCheck, c: Config, bad: set<PubKey>) {
    && CollisionFree(h, b) && c.depth + 1 < U64_RANGE
    && c.genesis == GenesisIds(h, b) && |bad| < c.sentinels.threshold
    && (forall t, k, sig | k in c.sentinels.keys - bad && c.sentinels.verify(t, k, sig) :: Backed(h, b, w, t))
  }

  /** What the front end lets through was checked, for at least one diligent sentinel signed it. */
  lemma CheckedIsBacked(h: Digest, b: Book, w: WitnessCheck, c: Config, bad: set<PubKey>, t: CompactTx)
    requires Diligent(h, b, w, c, bad) && FrontEnd.CheckAttestations(c.sentinels, t)
    ensures Backed(h, b, w, t)
  {
    FrontEnd.Quorum(c.sentinels, t, bad);
    var k :| k in t.attestations && k !in bad && FrontEnd.Vouches(c.sentinels, t, k, t.attestations[k]);
    var bare := t.(attestations := map[]);
    assert Backed(h, b, w, bare);
    var o :| Origin(h, b, w, bare, o);
    assert Origin(h, b, w, t, o);
  }

  lemma BackedSameOrigin(h: Digest, b: Book, w: WitnessCheck, c: CompactTx, d: CompactTx)
    requires CollisionFree(h, b) && Backed(h, b, w, c) && Backed(h, b, w, d)
    ensures SameOrigin(c, d)
  {
    var s :| Origin(h, b, w, c, s);
    var t :| Origin(h, b, w, d, t);
    IdsAreOrigins(h, b, s, t);
    assert c.OutputSet() == Compact(h, s).OutputSet() && d.OutputSet() == Compact(h, t).OutputSet();
  }

  /** Hashing without collisions and checking before signing give the safety proof what it asks of
      sentinels. */
  lemma DiligentIsHonest(h: Digest, b: Book, w: WitnessCheck, c: Config, bad: set<PubKey>)
    requires Diligent(h, b, w, c, bad)
    ensures Honest(c)
  {
    forall t | FrontEnd.CheckAttestations(c.sentinels, t)
      ensures Distinct(t.inputs) && Distinct(t.outputs) && t.OutputSet() !! c.genesis
    {
      CheckedIsBacked(h, b, w, c, bad, t);
      BackedIsFresh(h, b, w, t);
    }
    forall s, t | FrontEnd.CheckAttestations(c.sentinels, s) && FrontEnd.CheckAttestations(c.sentinels, t)
      ensures SameOrigin(s, t)
    {
      CheckedIsBacked(h, b, w, c, bad, s);
      CheckedIsBacked(h, b, w, c, bad, t);
      BackedSameOrigin(h, b, w, s, t);
    }
  }

  /** No double spend, from what the signing keys do. */
  lemma DiligentNeverDoubleSpends(h: Digest, b: Book, w: WitnessCheck, c: Config, bad: set<PubKey>, steps: seq<Step>)
    requires Diligent(h, b, w, c, bad)
    ensures var hist := Accepted(Run(c, steps));
            && (forall t | t in hist :: Backed(h, b, w, t)) && Sound(c.genesis, hist)
            && (MintsDistinct(hist) ==> CreatedOnce(hist) && ConsumedOnce(hist))
  {
    DiligentIsHonest(h, b, w, c, bad);
    RunOk(c, steps);
    NoDoubleSpendInAnyRun(c, steps);
    AcceptedBacked(h, b, w, c, bad, Run(c, steps));
  }

  /** The transaction of the book that `t` stands for consumes, at position `k`, an input whose witness holds. */
  ghost predicate Unlocked(h: Digest, b: Book, w: WitnessCheck, t: CompactTx, k: nat, full: FullTx)
    requires AllSized(b) && k < |t.inputs|
  {
    && full in b.txs && TxId(h, full) == t.id && k < |full.inputs| == |full.witnesses|
    && InputHash(h, full.inputs[k]) == t.inputs[k] && w(full, k)
  }

  /** In every run, no id leaves the unspent set unless the witness for it was checked. */
  lemma WitnessedInAnyRun(h: Digest, b: Book, w: WitnessCheck, c: Config, bad: set<PubKey>, steps: seq<Step>,
                          t: CompactTx, k: nat)
    requires Diligent(h, b, w, c, bad) && t in Accepted(Run(c, steps)) && k < |t.inputs|
    ensures exists full :: Unlocked(h, b, w, t, k, full)
  {
    DiligentNeverDoubleSpends(h, b, w, c, bad, steps);
    BackedIsUnlocked(h, b, w, t, k);
  }

  lemma BackedIsUnlocked(h: Digest, b: Book, w: WitnessCheck, t: CompactTx, k: nat)
    requires AllSized(b) && Backed(h, b, w, t) && k < |t.inputs|
    ensures exists full :: Unlocked(h, b, w, t, k, full)
  {
    var full :| Origin(h, b, w, t, full);
    assert t.inputs == Compact(h, full).inputs && t.id == Compact(h, full).id;
    assert Unlocked(h, b, w, t, k, full);
  }

  /** In every run, what a payment creates is worth something, and what it moves fits in 64 bits. */
  lemma PositiveInAnyRun(h: Digest, b: Book, w: WitnessCheck, c: Config, bad: set<PubKey>, steps: seq<Step>,
                         t: CompactTx, k: nat)
    requires Diligent(h, b, w, c, bad) && t in Accepted(Run(c, steps)) && !t.Mint()
    ensures t.outputs != [] && SumOf(Values(h, b), t.outputs) < U64_RANGE
    ensures k < |t.outputs| ==> Values(h, b)(t.outputs[k]) > 0
  {
    DiligentNeverDoubleSpends(h, b, w, c, bad, steps);
    BackedIsPositive(h, b, w, t, k);
  }

  lemma BackedIsPositive(h: Digest, b: Book, w: WitnessCheck, t: CompactTx, k: nat)
    requires CollisionFree(h, b) && Backed(h, b, w, t) && !t.Mint()
    ensures t.outputs != [] && SumOf(Values(h, b), t.outputs) < U64_RANGE
    ensures k < |t.outputs| ==> Values(h, b)(t.outputs[k]) > 0
  {
    var full :| Origin(h, b, w, t, full);
    assert t.outputs == Compact(h, full).outputs && |t.outputs| == |full.outputs|;
    TxValues(h, b, full);
    if k < |t.outputs| {
      OutputPreimage(h, b, full, k);
      ValueIs(h, b, Spending(h, full, k));
      assert OutputValues(full.outputs)[k] > 0;
    }
  }

  lemma {:induction false} PrefixOk(genesis: set<Hash>, hist: seq<CompactTx>, n: nat)
    requires Sound(genesis, hist) && Fresh(genesis, hist) && n <= |hist|
    ensures Sound(genesis, hist[..n]) && Fresh(genesis, hist[..n])
  {
    if n == |hist| {
      assert hist[..n] == hist;
    } else {
      var init := hist[..|hist| - 1];
      PrefixOk(genesis, init, n);
      assert init[..n] == hist[..n];
    }
  }

  lemma ChainPrefix(s: System, n: nat)
    requires n <= |s.chain|
    ensures var m := |Flatten(s.chain[..n])|;
            m <= |Accepted(s)| && Accepted(s)[..m] == Flatten(s.chain[..n])
  {
    FlattenCut(s.chain, n);
  }

  /** In every run in which no mint is accepted twice, after every block the value behind the unspent set
      is the genesis value and what was minted up to that block; the same holds with the transactions
      waiting for the next block. */
  lemma SupplyInAnyRun(h: Digest, b: Book, w: WitnessCheck, c: Config, bad: set<PubKey>, steps: seq<Step>)
    requires Diligent(h, b, w, c, bad) && MintsDistinct(Accepted(Run(c, steps)))
    ensures var s, v := Run(c, steps), Values(h, b);
            && (forall n | 0 <= n <= |s.chain| ::
                  Total(v, Replay(c.genesis, s.chain[..n])) == Total(v, c.genesis) + Minted(v, Flatten(s.chain[..n])))
            && Total(v, Uhs(c.genesis, Accepted(s))) == Total(v, c.genesis) + Minted(v, Accepted(s))
  {
    DiligentIsHonest(h, b, w, c, bad);
    RunOk(c, steps);
    var s, v := Run(c, steps), Values(h, b);
    AcceptedIsGenuine(c, s);
    NoDoubleSpend(c.genesis, Accepted(s));
    AcceptedBacked(h, b, w, c, bad, s);
    Conservation(h, b, w, Accepted(s));
    forall n | 0 <= n <= |s.chain|
      ensures Total(v, Replay(c.genesis, s.chain[..n])) == Total(v, c.genesis) + Minted(v, Flatten(s.chain[..n]))
    {
      var m := |Flatten(s.chain[..n])|;
      ChainPrefix(s, n);
      PrefixOk(c.genesis, Accepted(s), m);
      Conservation(h, b, w, Accepted(s)[..m]);
    }
  }

  lemma AcceptedBacked(h: Digest, b: Book, w: WitnessCheck, c: Config, bad: set<PubKey>, s: System)
    requires Diligent(h, b, w, c, bad) && Inv(c, s)
    ensures forall t | t in Accepted(s) :: Backed(h, b, w, t)
  {
    forall t | t in Accepted(s) ensures Backed(h, b, w, t) {
      assert FrontEnd.CheckAttestations(c.sentinels, t);
      CheckedIsBacked(h, b, w, c, bad, t);
    }
  }
}

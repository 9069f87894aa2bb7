/** What should settle does: a checked payment over unspent ids, seen by shards that are up to date, gets into
    the next block, whatever the order in which shards are asked and their answers arrive. */
module Liveness {
  import opened Common
  import opened Ledger
  import opened Shard
  import opened Settlement
  import opened Window
  import opened Safety
  import opened Theorems
  import FrontEnd
  import Archiver
  import Atomizer
  import StateMachine

  // ---------------------------------------------------------------- gathering

  function Below(n: nat): (s: set<nat>)
    ensures forall i: nat :: i in s <==> i < n
  {
    if n == 0 then {} else Below(n - 1) + {n - 1}
  }

  /** The positions of the inputs. */
  function Positions(tx: CompactTx): set<nat> { Below(|tx.inputs|) }

  lemma {:induction false} CountBelow(s: set<nat>, n: nat)
    requires s <= Below(n)
    ensures |s| <= n && (|s| == n <==> s == Below(n))
    decreases n
  {
    if n == 0 {
      assert s == {};
    } else {
      CountBelow(s - {n - 1}, n - 1);
      CountBelow(Below(n - 1), n - 1);
      assert Below(n) == Below(n - 1) + {n - 1};
      if n - 1 in s { assert s == (s - {n - 1}) + {n - 1}; } else { assert s - {n - 1} == s; }
    }
  }

  function Heights(seen: set<nat>, h: nat): map<nat, nat> { map i | i in seen :: h }

  lemma OldestOfOne(seen: set<nat>, h: nat)
    requires seen != {}
    ensures FrontEnd.Oldest(Heights(seen, h)) == h
  {
    var i :| i in seen;
    assert Heights(seen, h)[i] in Heights(seen, h).Values;
    FrontEnd.OldestExists(Heights(seen, h));
  }

  /** The inputs at the positions `seen`, and not all, are attested at height `h`. */
  ghost predicate Partial(f: FrontEnd.State, tx: CompactTx, h: nat, seen: set<nat>) {
    && seen < Positions(tx)
    && if tx.id in f.pending then f.pending[tx.id] == FrontEnd.Gathering(tx, Heights(seen, h)) else seen == {}
  }

  /** An answer about `tx` from a shard at height `h`. */
  ghost predicate Answers(note: Notification, tx: CompactTx, h: nat) {
    note.tx == tx && note.height == h && note.attested <= Positions(tx)
  }

  lemma GatherMore(f: FrontEnd.State, tx: CompactTx, h: nat, seen: set<nat>, note: Notification)
    requires Partial(f, tx, h, seen) && Answers(note, tx, h)
    ensures FrontEnd.Gather(f, note) == FrontEnd.Gathering(tx, Heights(seen + note.attested, h))
  {
    assert FrontEnd.Attest(Heights(seen, h), note.attested, h) == Heights(seen + note.attested, h);
    assert FrontEnd.Attest(map[], note.attested, h) == Heights(note.attested, h);
    assert seen == {} ==> seen + note.attested == note.attested;
  }

  /** The inputs at `now` are attested: the transaction has been handed on exactly when these are all. */
  ghost predicate Outcome(f: FrontEnd.State, g: FrontEnd.State, tx: CompactTx, h: nat, now: set<nat>) {
    if now == Positions(tx) then Partial(g, tx, h, {}) && g.complete == f.complete + [FrontEnd.Aggregate(tx, h)]
    else Partial(g, tx, h, now) && g.complete == f.complete
  }

  lemma OneAnswer(c: FrontEnd.Sentinels, f: FrontEnd.State, tx: CompactTx, h: nat, seen: set<nat>, note: Notification)
    requires Partial(f, tx, h, seen) && Answers(note, tx, h) && FrontEnd.CheckAttestations(c, tx)
    ensures Outcome(f, FrontEnd.TxNotify(c, f, note), tx, h, seen + note.attested)
  {
    var now := seen + note.attested;
    GatherMore(f, tx, h, seen, note);
    CountBelow(now, |tx.inputs|);
    assert Heights(now, h).Keys == now;
    if now == Positions(tx) { OldestOfOne(now, h); }
  }

  type Handler = (FrontEnd.State, Notification) -> FrontEnd.State

  ghost function Handle(c: FrontEnd.Sentinels): Handler { (f, note) => FrontEnd.TxNotify(c, f, note) }

  ghost function Fold(step: Handler, f: FrontEnd.State, notes: seq<Notification>): FrontEnd.State
    decreases |notes|
  {
    if notes == [] then f else Fold(step, step(f, notes[0]), notes[1..])
  }

  ghost function Notified(c: FrontEnd.Sentinels, f: FrontEnd.State, notes: seq<Notification>): FrontEnd.State {
    Fold(Handle(c), f, notes)
  }

  function Attested(notes: seq<Notification>): set<nat> {
    if notes == [] then {} else notes[0].attested + Attested(notes[1..])
  }

  /** `more` is `had` and then nothing but copies of `g`. */
  ghost predicate Copies(had: seq<FrontEnd.Aggregate>, more: seq<FrontEnd.Aggregate>, g: FrontEnd.Aggregate) {
    |had| <= |more| && more[..|had|] == had && forall i | |had| <= i < |more| :: more[i] == g
  }

  lemma CopiesFurther(had: seq<FrontEnd.Aggregate>, some: seq<FrontEnd.Aggregate>, more: seq<FrontEnd.Aggregate>,
                      g: FrontEnd.Aggregate)
    requires (some == had || some == had + [g]) && Copies(some, more, g)
    ensures Copies(had, more, g) && |some| <= |more|
  {
    assert more[..|had|] == more[..|some|][..|had|];
  }

  ghost predicate AllAnswer(notes: seq<Notification>, tx: CompactTx, h: nat) {
    forall k | 0 <= k < |notes| :: Answers(notes[k], tx, h)
  }

  /** The transaction has been handed on some times, at least once if all of its inputs are covered. */
  ghost predicate HandedOn(f: FrontEnd.State, d: FrontEnd.State, tx: CompactTx, h: nat, covered: set<nat>) {
    && Copies(f.complete, d.complete, FrontEnd.Aggregate(tx, h))
    && (Positions(tx) <= covered ==> |d.complete| > |f.complete|)
  }

  function Left(tx: CompactTx, now: set<nat>): set<nat> { if now == Positions(tx) then {} else now }

  ghost predicate Moves(step: Handler, f: FrontEnd.State, tx: CompactTx, h: nat, seen: set<nat>, note: Notification) {
    Partial(f, tx, h, seen) && Answers(note, tx, h) ==> Outcome(f, step(f, note), tx, h, seen + note.attested)
  }

  /** Answers in any order, with repetitions: the transaction is handed on once they cover all inputs. */
  lemma {:induction false} AllAnswers(step: Handler, f: FrontEnd.State, tx: CompactTx, h: nat, seen: set<nat>,
                                      notes: seq<Notification>)
    requires forall f, seen, note :: Moves(step, f, tx, h, seen, note)
    requires Partial(f, tx, h, seen) && AllAnswer(notes, tx, h)
    ensures HandedOn(f, Fold(step, f, notes), tx, h, seen + Attested(notes))
    decreases |notes|
  {
    if notes == [] {
      assert seen + Attested(notes) == seen;
    } else {
      var g, now := step(f, notes[0]), seen + notes[0].attested;
      assert Moves(step, f, tx, h, seen, notes[0]);
      AllAnswers(step, g, tx, h, Left(tx, now), notes[1..]);
      OutcomeCopies(f, g, tx, h, now, Attested(notes[1..]), Fold(step, g, notes[1..]));
      assert seen + Attested(notes) == now + Attested(notes[1..]);
    }
  }

  lemma AnswersHandOn(c: FrontEnd.Sentinels, f: FrontEnd.State, tx: CompactTx, h: nat, notes: seq<Notification>)
    requires Partial(f, tx, h, {}) && FrontEnd.CheckAttestations(c, tx) && AllAnswer(notes, tx, h)
    ensures HandedOn(f, Notified(c, f, notes), tx, h, Attested(notes))
  {
    forall f, seen, note ensures Moves(Handle(c), f, tx, h, seen, note) {
      if Partial(f, tx, h, seen) && Answers(note, tx, h) { OneAnswer(c, f, tx, h, seen, note); }
    }
    AllAnswers(Handle(c), f, tx, h, {}, notes);
    assert {} + Attested(notes) == Attested(notes);
  }

  lemma OutcomeCopies(f: FrontEnd.State, g: FrontEnd.State, tx: CompactTx, h: nat, now: set<nat>, rest: set<nat>,
                      d: FrontEnd.State)
    requires Outcome(f, g, tx, h, now) && HandedOn(g, d, tx, h, Left(tx, now) + rest)
    ensures HandedOn(f, d, tx, h, now + rest)
  {
    CopiesFurther(f.complete, g.complete, d.complete, FrontEnd.Aggregate(tx, h));
  }

  // ---------------------------------------------------------------- committing

  /** Committing transactions that do not touch these ids leaves them unspent in the block being assembled. */
  lemma {:induction false} Untouched(a: Atomizer.State, batch: seq<FrontEnd.Aggregate>, ids: set<Hash>)
    requires a.Valid() && a.spent[0] !! ids && forall g | g in batch :: g.tx.InputSet() !! ids
    ensures var b := StateMachine.InsertAll(a, batch).0; b.spent[0] !! ids && b.height == a.height && b.depth == a.depth
  {
    if batch != [] {
      Untouched(a, batch[..|batch| - 1], ids);
      assert batch[|batch| - 1] in batch;
    }
  }

  lemma FreshAccepted(a: Atomizer.State, tx: CompactTx)
    requires a.Valid() && a.spent[0] !! tx.InputSet()
    ensures Atomizer.InsertComplete(a, a.height, tx) == (Atomizer.Accept(a, tx), None)
  {
    assert Sub64(a.height, a.height) == 0;
    assert Atomizer.Clashes(a.spent, tx.inputs, 0) == {};
  }

  lemma {:induction false} OnceAccepted(a: Atomizer.State, batch: seq<FrontEnd.Aggregate>, k: nat, tx: CompactTx)
    requires a.Valid() && k <= |batch| && tx in StateMachine.InsertAll(a, batch[..k]).0.complete
    ensures tx in StateMachine.InsertAll(a, batch).0.complete
  {
    if k == |batch| {
      assert batch[..k] == batch;
    } else {
      var n := |batch| - 1;
      assert batch[..n][..k] == batch[..k];
      OnceAccepted(a, batch[..n], k, tx);
    }
  }

  lemma {:induction false} AcceptedStays(a: Atomizer.State, batch: seq<FrontEnd.Aggregate>)
    requires a.Valid()
    ensures var b := StateMachine.InsertAll(a, batch).0; a.complete <= b.complete && b.height == a.height
  {
    if batch != [] { AcceptedStays(a, batch[..|batch| - 1]); }
  }

  lemma BatchAccepts(a: Atomizer.State, had: seq<FrontEnd.Aggregate>, batch: seq<FrontEnd.Aggregate>, tx: CompactTx)
    requires a.Valid() && Copies(had, batch, FrontEnd.Aggregate(tx, a.height)) && |had| < |batch|
    requires a.spent[0] !! tx.InputSet() && forall g | g in had :: g.tx.InputSet() !! tx.InputSet()
    ensures tx in StateMachine.InsertAll(a, batch).0.complete
  {
    var k, b := |had|, StateMachine.InsertAll(a, had).0;
    Untouched(a, had, tx.InputSet());
    FreshAccepted(b, tx);
    assert batch[..k] == had && batch[k] == FrontEnd.Aggregate(tx, a.height);
    InsertNext(a, batch, k);
    OnceAccepted(a, batch, k + 1, tx);
  }

  lemma InsertNext(a: Atomizer.State, batch: seq<FrontEnd.Aggregate>, k: nat)
    requires a.Valid() && k < |batch|
    ensures StateMachine.InsertAll(a, batch[..k + 1]).0
         == Atomizer.InsertComplete(StateMachine.InsertAll(a, batch[..k]).0, batch[k].oldest, batch[k].tx).0
  {
    assert batch[..k + 1][..k] == batch[..k];
  }

  // ---------------------------------------------------------------- the steps

  function AttestSteps(shards: seq<Snapshot>, tx: CompactTx, asked: seq<nat>): seq<Step>
    requires Indexes(asked, |shards|)
  {
    if asked == [] then []
    else [Capture(asked[0])] + [Attest(asked[0], shards[asked[0]], tx)] + AttestSteps(shards, tx, asked[1..])
  }

  function GatherSteps(r: nat, notes: seq<Notification>): seq<Step> {
    if notes == [] then [] else [Gather(r, notes[0])] + GatherSteps(r, notes[1..])
  }

  lemma AfterOne(c: Config, s: System, step: Step, rest: seq<Step>)
    ensures After(c, s, [step] + rest) == After(c, Do(c, s, step), rest)
  {
    assert ([step] + rest)[1..] == rest;
  }

  lemma {:induction false} AfterAppend(c: Config, s: System, a: seq<Step>, b: seq<Step>)
    ensures After(c, s, a + b) == After(c, After(c, s, a), b)
    decreases |a|
  {
    if a == [] {
      assert a + b == b;
    } else {
      assert (a + b)[1..] == a[1..] + b;
      AfterAppend(c, Do(c, s, a[0]), a[1..], b);
    }
  }

  /** Only messages have come in. */
  ghost predicate Heard(s: System, t: System) {
    && t.machine == s.machine && t.chain == s.chain && t.replicas == s.replicas && t.shards == s.shards
    && s.notifications <= t.notifications && s.captured <= t.captured
  }

  /** The positions of the inputs that belong to a shard. */
  function HeldBy(r: Range, tx: CompactTx): set<nat> { set i | i in Positions(tx) && r.Holds(tx.inputs[i]) }

  /** The answer of an up-to-date shard to which no input is unknown. */
  function Answer(r: Range, h: nat, tx: CompactTx): Notification { Notification(tx, HeldBy(r, tx), h) }

  ghost predicate Attesting(c: Config, shards: seq<Snapshot>, tx: CompactTx, h: nat) {
    && |shards| == |c.ranges|
    && forall i | 0 <= i < |shards| ::
         DigestTransaction(c.ranges[i], shards[i], tx) == Notify(Answer(c.ranges[i], h, tx))
  }

  predicate Indexes(asked: seq<nat>, n: nat) { forall k | 0 <= k < |asked| :: asked[k] < n }

  function AnswersOf(c: Config, h: nat, tx: CompactTx, asked: seq<nat>): (notes: seq<Notification>)
    requires Indexes(asked, |c.ranges|)
    ensures |notes| == |asked|
  {
    seq(|asked|, k requires 0 <= k < |asked| => Answer(c.ranges[asked[k]], h, tx))
  }

  ghost predicate Arrived(s: System, notes: seq<Notification>) {
    forall k | 0 <= k < |notes| :: notes[k] in s.notifications
  }

  lemma AskOne(c: Config, s: System, tx: CompactTx, h: nat, i: nat)
    requires Attesting(c, s.shards, tx, h) && FrontEnd.CheckAttestations(c.sentinels, tx) && i < |c.ranges|
    ensures var t := Do(c, Do(c, s, Capture(i)), Attest(i, s.shards[i], tx));
            Heard(s, t) && Answer(c.ranges[i], h, tx) in t.notifications
  {
    var u := Do(c, s, Capture(i));
    assert Enabled(c, s, Capture(i)) && u == s.(captured := s.captured + {(i, s.shards[i])});
    assert Enabled(c, u, Attest(i, s.shards[i], tx));
  }

  lemma {:induction false} AskAll(c: Config, s: System, tx: CompactTx, h: nat, asked: seq<nat>)
    requires FrontEnd.CheckAttestations(c.sentinels, tx) && Attesting(c, s.shards, tx, h)
    requires Indexes(asked, |c.ranges|)
    ensures var t := After(c, s, AttestSteps(s.shards, tx, asked));
            Heard(s, t) && Arrived(t, AnswersOf(c, h, tx, asked))
    decreases |asked|
  {
    if asked != [] {
      var i, rest := asked[0], AttestSteps(s.shards, tx, asked[1..]);
      var u := Do(c, s, Capture(i));
      var v := Do(c, u, Attest(i, s.shards[i], tx));
      AskOne(c, s, tx, h, i);
      assert [Capture(i)] + [Attest(i, s.shards[i], tx)] + rest == [Capture(i)] + ([Attest(i, s.shards[i], tx)] + rest);
      AfterOne(c, s, Capture(i), [Attest(i, s.shards[i], tx)] + rest);
      AfterOne(c, u, Attest(i, s.shards[i], tx), rest);
      AskAll(c, v, tx, h, asked[1..]);
      ArrivedMore(c, After(c, v, rest), tx, h, asked);
    }
  }

  lemma ArrivedMore(c: Config, t: System, tx: CompactTx, h: nat, asked: seq<nat>)
    requires asked != [] && Indexes(asked, |c.ranges|) && Answer(c.ranges[asked[0]], h, tx) in t.notifications
    requires Indexes(asked[1..], |c.ranges|) && Arrived(t, AnswersOf(c, h, tx, asked[1..]))
    ensures Arrived(t, AnswersOf(c, h, tx, asked))
  {
    var notes := AnswersOf(c, h, tx, asked);
    forall k | 0 <= k < |notes| ensures notes[k] in t.notifications {
      if k > 0 { assert notes[k] == AnswersOf(c, h, tx, asked[1..])[k - 1]; }
    }
  }

  lemma GatherOne(c: Config, s: System, r: nat, note: Notification)
    requires |s.shards| == |c.ranges| && r < |s.replicas| && note in s.notifications
    ensures Do(c, s, Gather(r, note)) ==
            s.(replicas := s.replicas[r := FrontEnd.TxNotify(c.sentinels, s.replicas[r], note)])
  {
  }

  lemma Overwritten(s: System, r: nat, f: FrontEnd.State, g: FrontEnd.State)
    requires r < |s.replicas|
    ensures var t := s.(replicas := s.replicas[r := f]);
            t.(replicas := t.replicas[r := g]) == s.(replicas := s.replicas[r := g])
  {
  }

  lemma {:induction false} GatherAll(c: Config, s: System, r: nat, notes: seq<Notification>, t: System)
    requires |s.shards| == |c.ranges| && r < |s.replicas| && Arrived(s, notes)
    requires t == After(c, s, GatherSteps(r, notes))
    ensures t == s.(replicas := s.replicas[r := Notified(c.sentinels, s.replicas[r], notes)])
    decreases |notes|
  {
    if notes == [] {
      assert s.replicas[r := s.replicas[r]] == s.replicas;
    } else {
      var f := FrontEnd.TxNotify(c.sentinels, s.replicas[r], notes[0]);
      var u := s.(replicas := s.replicas[r := f]);
      AfterOne(c, s, Gather(r, notes[0]), GatherSteps(r, notes[1..]));
      GatherOne(c, s, r, notes[0]);
      GatherAll(c, u, r, notes[1..], t);
      Overwritten(s, r, f, Notified(c.sentinels, f, notes[1..]));
    }
  }

  // ---------------------------------------------------------------- up-to-date shards

  /** Every shard has digested the whole chain. */
  ghost predicate UpToDate(s: System) {
    s.chain != [] && forall i | 0 <= i < |s.shards| :: s.shards[i].height == |s.chain|
  }

  lemma ShardAnswers(c: Config, s: System, tx: CompactTx, i: nat)
    requires Inv(c, s) && UpToDate(s) && i < |s.shards|
    requires !tx.Mint() && tx.InputSet() <= Replay(c.genesis, s.chain)
    ensures i < |c.ranges|
    ensures DigestTransaction(c.ranges[i], s.shards[i], tx) == Notify(Answer(c.ranges[i], |s.chain|, tx))
  {
    var r, snap := c.ranges[i], s.shards[i];
    assert SliceAt(c, s.chain, i, snap) && s.chain[..|s.chain|] == s.chain;
    forall x | x in tx.inputs && r.Holds(x) ensures x in snap.uhs { assert x in tx.InputSet(); }
    var reply := DigestTransaction(r, snap, tx);
    assert reply.msg.attested == HeldBy(r, tx);
  }

  lemma ShardsAttest(c: Config, s: System, tx: CompactTx)
    requires Inv(c, s) && UpToDate(s) && !tx.Mint() && tx.InputSet() <= Replay(c.genesis, s.chain)
    ensures Attesting(c, s.shards, tx, |s.chain|)
  {
    forall i | 0 <= i < |s.shards|
      ensures DigestTransaction(c.ranges[i], s.shards[i], tx) == Notify(Answer(c.ranges[i], |s.chain|, tx))
    {
      ShardAnswers(c, s, tx, i);
    }
  }

  /** A list of shards in which every shard occurs, in any order and any number of times. */
  ghost predicate EveryShard(c: Config, asked: seq<nat>) {
    Indexes(asked, |c.ranges|) && forall i: nat | i < |c.ranges| :: i in asked
  }

  lemma {:induction false} AttestedIs(notes: seq<Notification>, k: nat)
    requires k < |notes|
    ensures notes[k].attested <= Attested(notes)
  {
    if k > 0 { AttestedIs(notes[1..], k - 1); }
  }

  /** The shards between them attest every input. */
  lemma EveryInputAttested(c: Config, h: nat, tx: CompactTx, asked: seq<nat>)
    requires Partition(c.ranges) && EveryShard(c, asked)
    ensures Positions(tx) <= Attested(AnswersOf(c, h, tx, asked))
  {
    var notes := AnswersOf(c, h, tx, asked);
    forall p | p in Positions(tx) ensures p in Attested(notes) {
      assert Covered(c.ranges, tx.inputs[p][0]);
      var i: nat :| i < |c.ranges| && c.ranges[i].Covers(tx.inputs[p][0]);
      assert i in asked;
      var k :| 0 <= k < |asked| && asked[k] == i;
      assert p in notes[k].attested;
      AttestedIs(notes, k);
    }
  }

  lemma AnswersAnswer(c: Config, h: nat, tx: CompactTx, asked: seq<nat>)
    requires Indexes(asked, |c.ranges|)
    ensures AllAnswer(AnswersOf(c, h, tx, asked), tx, h)
  {
  }

  // ---------------------------------------------------------------- a payment settles

  /** What the front end and the block in assembly must not hold: the transaction under way, or another that
      spends the same ids. */
  ghost predicate Unopposed(s: System, r: nat, tx: CompactTx) {
    && r < |s.replicas| && tx.id !in s.replicas[r].pending
    && (forall g | g in s.replicas[r].complete :: g.tx.InputSet() !! tx.InputSet())
    && tx.InputSet() !! InputsOf(s.machine.atomizer.complete)
  }

  /** The batch that replica `r` will propose. */
  ghost function Batch(c: Config, s: System, r: nat, tx: CompactTx, gathered: seq<nat>): seq<FrontEnd.Aggregate>
    requires r < |s.replicas| && Indexes(gathered, |c.ranges|)
  {
    Notified(c.sentinels, s.replicas[r], AnswersOf(c, |s.chain|, tx, gathered)).complete
  }

  lemma ProposeAndCommit(c: Config, s: System, r: nat, batch: seq<FrontEnd.Aggregate>)
    requires |s.shards| == |c.ranges| && r < |s.replicas| && s.replicas[r].complete == batch && s.machine.Valid()
    ensures var t := After(c, s, [Propose(r)] + [CommitBatch(batch)]);
            && t.chain == s.chain && t.shards == s.shards
            && t.machine.atomizer == StateMachine.InsertAll(s.machine.atomizer, batch).0
  {
    var u := Do(c, s, Propose(r));
    AfterOne(c, s, Propose(r), [CommitBatch(batch)]);
    AfterOne(c, u, CommitBatch(batch), []);
    assert [CommitBatch(batch)] + [] == [CommitBatch(batch)];
    assert Enabled(c, s, Propose(r)) && batch in u.batches && u.machine == s.machine;
    assert Enabled(c, u, CommitBatch(batch));
  }

  /** From one state on. */
  lemma SettlesFrom(c: Config, s: System, tx: CompactTx, r: nat, asked: seq<nat>, gathered: seq<nat>)
    requires Inv(c, s) && Partition(c.ranges) && UpToDate(s) && FrontEnd.CheckAttestations(c.sentinels, tx)
    requires !tx.Mint() && tx.InputSet() <= Replay(c.genesis, s.chain) && Unopposed(s, r, tx)
    requires EveryShard(c, asked) && EveryShard(c, gathered)
    ensures var notes, batch := AnswersOf(c, |s.chain|, tx, gathered), Batch(c, s, r, tx, gathered);
            var t := After(c, After(c, After(c, s, AttestSteps(s.shards, tx, asked)), GatherSteps(r, notes)),
                           [Propose(r)] + [CommitBatch(batch)]);
            && tx in t.machine.atomizer.complete && t.chain == s.chain && |t.shards| == |c.ranges|
            && t.machine.Valid() && s.machine.atomizer.complete <= t.machine.atomizer.complete
            && t.machine.atomizer.height == s.machine.atomizer.height
  {
    var h, notes := |s.chain|, AnswersOf(c, |s.chain|, tx, gathered);
    ShardsAttest(c, s, tx);
    AskAll(c, s, tx, h, asked);
    var u := After(c, s, AttestSteps(s.shards, tx, asked));
    GatheredToo(c, u, tx, h, asked, gathered);
    var v := After(c, u, GatherSteps(r, notes));
    GatherAll(c, u, r, notes, v);
    var f := s.replicas[r];
    AnswersAnswer(c, h, tx, gathered);
    EveryInputAttested(c, h, tx, gathered);
    assert {} < Positions(tx) by { assert 0 in Positions(tx); }
    AnswersHandOn(c.sentinels, f, tx, h, notes);
    ProposeAndCommit(c, v, r, Batch(c, s, r, tx, gathered));
    BatchAccepts(s.machine.atomizer, f.complete, Batch(c, s, r, tx, gathered), tx);
    AcceptedStays(s.machine.atomizer, Batch(c, s, r, tx, gathered));
  }

  /** An answer of a shard is the same whenever the shard is asked. */
  lemma GatheredToo(c: Config, u: System, tx: CompactTx, h: nat, asked: seq<nat>, gathered: seq<nat>)
    requires EveryShard(c, asked) && Indexes(gathered, |c.ranges|) && Arrived(u, AnswersOf(c, h, tx, asked))
    ensures Arrived(u, AnswersOf(c, h, tx, gathered))
  {
    var notes := AnswersOf(c, h, tx, gathered);
    forall k | 0 <= k < |notes| ensures notes[k] in u.notifications {
      assert gathered[k] in asked;
      var l :| 0 <= l < |asked| && asked[l] == gathered[k];
      assert notes[k] == AnswersOf(c, h, tx, asked)[l];
    }
  }

  /** Every shard is asked, the answers are gathered at replica `r`, and its batch is proposed and committed. */
  ghost function SettlingSteps(c: Config, s: System, tx: CompactTx, r: nat, asked: seq<nat>, gathered: seq<nat>)
    : seq<Step>
    requires |s.shards| == |c.ranges| && r < |s.replicas|
    requires Indexes(asked, |c.ranges|) && Indexes(gathered, |c.ranges|)
  {
    AttestSteps(s.shards, tx, asked) + GatherSteps(r, AnswersOf(c, |s.chain|, tx, gathered)) +
    ([Propose(r)] + [CommitBatch(Batch(c, s, r, tx, gathered))])
  }

  /** After any run, if the shards divide the ids among them and have caught up with the chain, then a checked
      payment whose inputs are unspent, and that nothing under way opposes, is accepted: in whatever order the
      shards are asked and the answers arrive, and however often. The next block holds it. */
  lemma UnspentSettles(c: Config, steps: seq<Step>, tx: CompactTx, r: nat, asked: seq<nat>, gathered: seq<nat>)
    requires Honest(c) && Partition(c.ranges) && UpToDate(Run(c, steps))
    requires FrontEnd.CheckAttestations(c.sentinels, tx) && !tx.Mint()
    requires tx.InputSet() <= Replay(c.genesis, Run(c, steps).chain) && Unopposed(Run(c, steps), r, tx)
    requires EveryShard(c, asked) && EveryShard(c, gathered)
    ensures var s := Run(c, steps);
            && |s.shards| == |c.ranges|
            && var more := steps + SettlingSteps(c, s, tx, r, asked, gathered);
               && tx in Accepted(Run(c, more)) && Accepted(s) <= Accepted(Run(c, more))
               && (|s.chain| + 1 < U64_RANGE ==>
                     var d := Run(c, more + [CutBlock]).chain;
                     |d| == |s.chain| + 1 && tx in d[|s.chain|].txs)
  {
    RunOk(c, steps);
    var s := Run(c, steps);
    var notes, batch := AnswersOf(c, |s.chain|, tx, gathered), Batch(c, s, r, tx, gathered);
    var p, q := AttestSteps(s.shards, tx, asked), GatherSteps(r, notes);
    var z := [Propose(r)] + [CommitBatch(batch)];
    RunAppend(c, steps, p + q + z);
    AfterAppend(c, s, p + q, z);
    AfterAppend(c, s, p, q);
    SettlesFrom(c, s, tx, r, asked, gathered);
    CutHolds(c, steps + (p + q + z), tx);
  }

  lemma CutHolds(c: Config, steps: seq<Step>, tx: CompactTx)
    requires var s := Run(c, steps); |s.shards| == |c.ranges| && s.machine.Valid() && tx in s.machine.atomizer.complete
    ensures var s := Run(c, steps);
            s.machine.atomizer.height + 1 < U64_RANGE ==>
            var d := Run(c, steps + [CutBlock]).chain; |d| == |s.chain| + 1 && tx in d[|s.chain|].txs
  {
    assert (steps + [CutBlock])[..|steps|] == steps;
    var s := Run(c, steps);
    if s.machine.atomizer.height + 1 < U64_RANGE {
      assert Enabled(c, s, CutBlock);
    }
  }

  // ---------------------------------------------------------------- the archiver's gaps close

  lemma CachedBlock(c: Config, s: System, k: nat)
    requires Inv(c, s)
    ensures s.machine.Valid() && (s.archiver.best < k <= |s.chain| ==> k in s.machine.blocks)
    ensures k in s.machine.blocks ==>
      1 <= k <= |s.chain| && s.machine.blocks[k] == s.chain[k - 1] && s.chain[k - 1].height == k
  {
  }

  /** In every run a request for a block that the archiver still lacks is answered with that very block, and no
      answer is another block. */
  lemma RequestServed(c: Config, steps: seq<Step>, k: nat)
    requires Honest(c)
    ensures var s := Run(c, steps);
            s.machine.Valid() &&
            match StateMachine.Commit(s.machine, StateMachine.GetBlock(k)).1
            case Found(blk) => 1 <= k <= |s.chain| && blk == s.chain[k - 1] && blk.height == k
            case _ => !(s.archiver.best < k <= |s.chain|)
  {
    RunOk(c, steps);
    CachedBlock(c, Run(c, steps), k);
  }

  lemma DoOk(c: Config, s: System, step: Step)
    requires Honest(c) && Inv(c, s)
    ensures Inv(c, Do(c, s, step))
  {
    if Enabled(c, s, step) { StepOk(c, s, step); }
  }

  /** What waits behind a gap goes on waiting until it is stored. */
  lemma {:induction false} DeferredStays(a: Archiver.State, blk: Block, h: nat)
    requires a.Valid() && h in a.deferred
    ensures var b := Archiver.DigestBlock(a, blk).0; (h in b.deferred || h <= b.best) && a.best <= b.best
    decreases Archiver.Above(a.deferred, blk.height)
  {
    if blk.height == a.best + 1 && blk.height + 1 in a.deferred {
      assert blk.height + 1 in Archiver.Above(a.deferred, blk.height);
      var b := Archiver.Store(a, blk);
      DeferredStays(b, a.deferred[blk.height + 1], if h in b.deferred then h else blk.height + 1);
    }
  }

  lemma BestGrows(a: Archiver.State, blk: Block)
    requires a.Valid()
    ensures a.best <= Archiver.DigestBlock(a, blk).0.best
    ensures blk.height == a.best + 1 ==> a.best < Archiver.DigestBlock(a, blk).0.best
    ensures blk.height > a.best + 1 ==> blk.height in Archiver.DigestBlock(a, blk).0.deferred
  {
    if blk.height == a.best + 1 && blk.height + 1 in a.deferred {
      DeferredStays(Archiver.Store(a, blk), a.deferred[blk.height + 1], blk.height + 1);
    }
  }

  /** Requests, answers and what they bring in. */
  predicate Fetching(step: Step) { step.ServeBlock? || step.ArchiverReceive? }

  predicate AllFetching(steps: seq<Step>) { forall k | 0 <= k < |steps| :: Fetching(steps[k]) }

  ghost predicate Waiting(a: Archiver.State, h: nat) { h in a.deferred || h <= a.best }

  lemma FetchKeeps(c: Config, s: System, step: Step, h: nat)
    requires Inv(c, s) && Fetching(step) && Waiting(s.archiver, h)
    ensures Waiting(Do(c, s, step).archiver, h)
  {
    if Enabled(c, s, step) && step.ArchiverReceive? {
      BestGrows(s.archiver, step.blk);
      if h in s.archiver.deferred { DeferredStays(s.archiver, step.blk, h); }
    }
  }

  lemma {:induction false} WaitsOn(c: Config, s: System, more: seq<Step>, h: nat)
    requires Honest(c) && Inv(c, s) && Waiting(s.archiver, h) && AllFetching(more)
    ensures Waiting(After(c, s, more).archiver, h)
    decreases |more|
  {
    if more != [] {
      DoOk(c, s, more[0]);
      FetchKeeps(c, s, more[0], h);
      WaitsOn(c, Do(c, s, more[0]), more[1..], h);
    }
  }

  /** At rest, nothing waits at the edge. */
  lemma NoLongerWaiting(c: Config, s: System, h: nat)
    requires Inv(c, s) && Waiting(s.archiver, h) && h <= s.archiver.best + 1
    ensures h <= s.archiver.best
  {
  }

  /** The requested block is served and received. */
  lemma ServeAndReceive(c: Config, s: System, k: nat)
    requires Inv(c, s) && Archiver.GetBlock(k) in s.requests && s.archiver.best < k <= |s.chain|
    ensures var t := Do(c, Do(c, s, ServeBlock(k)), ArchiverReceive(s.chain[k - 1]));
            && t.chain == s.chain && s.archiver.Valid() && s.chain[k - 1].height == k
            && t.archiver == Archiver.DigestBlock(s.archiver, s.chain[k - 1]).0
  {
    assert Enabled(c, s, ServeBlock(k));
    var u := Do(c, s, ServeBlock(k));
    assert u.archiver == s.archiver && u.chain == s.chain && s.chain[k - 1] in u.broadcast;
    assert Enabled(c, u, ArchiverReceive(s.chain[k - 1]));
  }

  /** The blocks up to `h` are stored, and the chain is as it was. */
  ghost predicate Stored(c: Config, s: System, t: System, h: nat) {
    Inv(c, t) && t.chain == s.chain && h <= t.archiver.best
  }

  /** From one state on: the gap below `h` closes from the top. */
  lemma {:induction false} GapClosesFrom(c: Config, s: System, h: nat) returns (more: seq<Step>)
    requires Honest(c) && Inv(c, s) && h in s.archiver.deferred
    ensures Stored(c, s, After(c, s, more), h) && AllFetching(more)
    decreases h, 0
  {
    var k := h - 1;
    DeferredServed(c, s, h);
    if k in s.archiver.deferred {
      more := GapClosesFrom(c, s, k);
      WaitsOn(c, s, more, h);
      NoLongerWaiting(c, After(c, s, more), h);
    } else {
      more := OneMoreFetched(c, s, k, h);
    }
  }

  /** Fetching the block before a deferred one stores it, or defers it too. */
  lemma FetchOne(c: Config, s: System, k: nat, h: nat, t: System)
    requires Honest(c) && Inv(c, s) && h in s.archiver.deferred && s.archiver.best < k <= |s.chain|
    requires Archiver.GetBlock(k) in s.requests
    requires t == Do(c, Do(c, s, ServeBlock(k)), ArchiverReceive(s.chain[k - 1]))
    ensures Inv(c, t) && t.chain == s.chain && Waiting(t.archiver, h) && Waiting(t.archiver, k)
  {
    ServeAndReceive(c, s, k);
    DoOk(c, s, ServeBlock(k));
    DoOk(c, Do(c, s, ServeBlock(k)), ArchiverReceive(s.chain[k - 1]));
    BestGrows(s.archiver, s.chain[k - 1]);
    DeferredStays(s.archiver, s.chain[k - 1], h);
  }

  lemma {:induction false} OneMoreFetched(c: Config, s: System, k: nat, h: nat) returns (more: seq<Step>)
    requires Honest(c) && Inv(c, s) && h in s.archiver.deferred && h == k + 1 && s.archiver.best < k <= |s.chain|
    requires Archiver.GetBlock(k) in s.requests
    ensures Stored(c, s, After(c, s, more), h) && AllFetching(more)
    decreases k, 2
  {
    var first, second := ServeBlock(k), ArchiverReceive(s.chain[k - 1]);
    var t := Do(c, Do(c, s, first), second);
    FetchOne(c, s, k, h, t);
    var rest := FetchRest(c, t, k, h);
    more := [first] + ([second] + rest);
    AfterTwo(c, s, first, second, rest);
  }

  lemma {:induction false} FetchRest(c: Config, t: System, k: nat, h: nat) returns (rest: seq<Step>)
    requires Honest(c) && Inv(c, t) && Waiting(t.archiver, h) && Waiting(t.archiver, k) && h == k + 1
    ensures Stored(c, t, After(c, t, rest), h) && AllFetching(rest)
    decreases k, 1
  {
    rest := [];
    if k in t.archiver.deferred {
      rest := GapClosesFrom(c, t, k);
    }
    WaitsOn(c, t, rest, h);
    NoLongerWaiting(c, After(c, t, rest), h);
  }

  lemma AfterTwo(c: Config, s: System, first: Step, second: Step, rest: seq<Step>)
    ensures After(c, s, [first] + ([second] + rest)) == After(c, Do(c, Do(c, s, first), second), rest)
  {
    AfterOne(c, s, first, [second] + rest);
    AfterOne(c, Do(c, s, first), second, rest);
  }

  /** After any run: whatever the archiver has deferred, answering the requests it sends, and those it then sends,
      stores it and all before it. */
  lemma GapCloses(c: Config, steps: seq<Step>, h: nat) returns (more: seq<Step>)
    requires Honest(c) && h in Run(c, steps).archiver.deferred
    ensures var t := Run(c, steps + more); t.chain == Run(c, steps).chain && h <= t.archiver.best
    ensures AllFetching(more)
  {
    RunOk(c, steps);
    more := GapClosesFrom(c, Run(c, steps), h);
    RunAppend(c, steps, more);
  }

  /** After any run: once a request to prune has been carried out the cache holds exactly the blocks from there on,
      and the archiver holds the rest. */
  lemma PruningFrees(c: Config, steps: seq<Step>, h: nat)
    requires Honest(c) && Archiver.Prune(h) in Run(c, steps).requests
    ensures var s, t := Run(c, steps), Run(c, steps + [PruneCache(h)]);
            && (forall k :: k in t.machine.blocks <==> k in s.machine.blocks && k >= h)
            && h <= |t.chain| && forall k | 1 <= k < h :: k in t.archiver.db && t.archiver.db[k] == t.chain[k - 1]
  {
    RunOk(c, steps);
    assert (steps + [PruneCache(h)])[..|steps|] == steps;
    assert Enabled(c, Run(c, steps), PruneCache(h));
  }
}

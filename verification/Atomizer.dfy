/** The atomizer: a bounded window of recently spent ids, the transactions complete for the next
    block, and the notifications still gathering attestations. */
module Atomizer {
  import opened Common

  /** A transaction with the input indices attested so far. The source keys these by the
      transaction, whose equality compares ids only. */
  datatype Pending = Pending(tx: CompactTx, attested: set<nat>)

  /** `spent[0]` and `txs[0]` belong to the block being assembled; slot `i` is `i` blocks older. */
  datatype State = State(
    depth: nat,
    height: nat,
    complete: seq<CompactTx>,
    spent: seq<set<Hash>>,
    txs: seq<map<Hash, Pending>>
  )
  {
    predicate Valid() {
      && |spent| == |txs| == depth + 1
      && depth + 1 < U64_RANGE && height < U64_RANGE
    }
  }

  function Initial(depth: nat): State {
    State(depth, 0, [], seq(depth + 1, _ => {}), seq(depth + 1, _ => map[]))
  }

  /** The ids among `inputs` spent in slots below `n`. */
  ghost function ClashesBelow(spent: seq<set<Hash>>, inputs: seq<Hash>, n: nat): set<Hash> {
    set x | x in inputs && exists o :: 0 <= o < n && o < |spent| && x in spent[o]
  }

  /** The ids among `inputs` spent in slots 0 up to and including `range`. */
  ghost function Clashes(spent: seq<set<Hash>>, inputs: seq<Hash>, range: nat): set<Hash> {
    ClashesBelow(spent, inputs, range + 1)
  }

  predicate OutOfRange(s: State, offset: nat, tx: CompactTx) {
    offset > s.depth && tx.inputs != []
  }

  function Accept(s: State, tx: CompactTx): State
    requires s.Valid()
  {
    s.(spent := s.spent[0 := s.spent[0] + tx.InputSet()], complete := s.complete + [tx])
  }

  /** Outcome of a transaction whose attestations are complete, the oldest at height `oldest`. */
  ghost function InsertComplete(s: State, oldest: nat, tx: CompactTx): (r: (State, Option<TxError>))
    requires s.Valid()
    ensures r.0.Valid()
  {
    var offset := Sub64(s.height, oldest);
    if OutOfRange(s, offset, tx) then (s, Some(TxError(tx.id, StxoRange)))
    else
      var clashes := Clashes(s.spent, tx.inputs, offset);
      if clashes != {} then (s, Some(TxError(tx.id, InputsSpent(clashes))))
      else (Accept(s, tx), None)
  }

  /** Cutting a block ages every slot by one and forgets the oldest. */
  function Rotate(s: State): State
    requires s.Valid()
  {
    s.(height := s.height + 1,
       complete := [],
       spent := [{}] + s.spent[..s.depth],
       txs := [map[]] + s.txs[..s.depth])
  }

  function NextBlock(s: State): Block {
    Block(s.height + 1, s.complete)
  }

  function Evicted(s: State): set<TxError>
    requires s.Valid()
  {
    set id | id in s.txs[s.depth] :: TxError(id, Incomplete)
  }

  /** Some slot holds a notification for `id`. */
  ghost predicate Gathering(s: State, id: Hash) { exists o :: 0 <= o < |s.txs| && id in s.txs[o] }

  /** Nothing is dropped in silence: what no slot holds any more once a block has been cut is among the errors that
      come with the block, and each of them was being gathered. */
  lemma EvictedAreReported(s: State, id: Hash)
    requires s.Valid()
    ensures Gathering(s, id) && !Gathering(Rotate(s), id) ==> TxError(id, Incomplete) in Evicted(s)
    ensures TxError(id, Incomplete) in Evicted(s) ==> Gathering(s, id) && id in s.txs[s.depth]
  {
    if Gathering(s, id) && id !in s.txs[s.depth] {
      var o :| 0 <= o < |s.txs| && id in s.txs[o];
      assert Rotate(s).txs[o + 1] == s.txs[o];
    }
  }

  // ---------------------------------------------------------------- one notification at a time

  function Merge(slot: map<Hash, Pending>, tx: CompactTx, attested: set<nat>): map<Hash, Pending> {
    if tx.id in slot then slot[tx.id := Pending(slot[tx.id].tx, slot[tx.id].attested + attested)]
    else slot[tx.id := Pending(tx, attested)]
  }

  /** Slots below `n` that hold a notification for `id`. */
  function Holders(txs: seq<map<Hash, Pending>>, id: Hash, n: nat): set<nat>
    requires n <= |txs|
  {
    set o: nat | 0 <= o < n && id in txs[o]
  }

  function Attested(txs: seq<map<Hash, Pending>>, id: Hash, n: nat): set<nat>
    requires n <= |txs|
  {
    set o: nat, i | 0 <= o < n && id in txs[o] && i in txs[o][id].attested :: i
  }

  /** The largest (oldest) slot below `n` holding `id`, or 0. */
  function OldestHolder(txs: seq<map<Hash, Pending>>, id: Hash, n: nat): (r: nat)
    requires n <= |txs|
    ensures r in Holders(txs, id, n) || (r == 0 && Holders(txs, id, n) == {})
    ensures forall o | o in Holders(txs, id, n) :: o <= r
  {
    if n == 0 then 0
    else if id in txs[n - 1] then n - 1
    else
      assert Holders(txs, id, n) == Holders(txs, id, n - 1);
      OldestHolder(txs, id, n - 1)
  }

  function Forget(txs: seq<map<Hash, Pending>>, id: Hash): (r: seq<map<Hash, Pending>>)
    ensures |r| == |txs|
    ensures forall o | 0 <= o < |txs| :: r[o] == txs[o] - {id}
  {
    seq(|txs|, o requires 0 <= o < |txs| => txs[o] - {id})
  }

  function Record(s: State, offset: nat, tx: CompactTx, attested: set<nat>): State
    requires s.Valid() && offset <= s.depth
  {
    s.(txs := s.txs[offset := Merge(s.txs[offset], tx, attested)])
  }

  /** A transaction without inputs passes the range check at any height, so its slot must exist. */
  predicate InBounds(s: State, blockHeight: nat, tx: CompactTx) {
    tx.inputs != [] || Sub64(s.height, blockHeight) <= s.depth
  }

  /** Outcome of one shard notification. */
  ghost function Insert(s: State, blockHeight: nat, tx: CompactTx, attested: set<nat>): (r: (State, Option<TxError>))
    requires s.Valid() && InBounds(s, blockHeight, tx)
    ensures r.0.Valid()
  {
    var offset := Sub64(s.height, blockHeight);
    if OutOfRange(s, offset, tx) then (s, Some(TxError(tx.id, StxoRange)))
    else
      var s1 := Record(s, offset, tx, attested);
      var t := s1.txs[offset][tx.id].tx;
      assert offset in Holders(s1.txs, tx.id, |s1.txs|);
      var oldest := OldestHolder(s1.txs, tx.id, |s1.txs|);
      if |Attested(s1.txs, tx.id, |s1.txs|)| != |t.inputs| then (s1, None)
      else
        var clashes := Clashes(s1.spent, t.inputs, oldest);
        if clashes != {} then (s1, Some(TxError(t.id, InputsSpent(clashes))))
        else
          (s1.(spent := s1.spent[0 := s1.spent[0] + t.InputSet()],
               complete := s1.complete + [s1.txs[oldest][tx.id].tx],
               txs := Forget(s1.txs, tx.id)), None)
  }

  // ---------------------------------------------------------------- the two paths agree

  function Range(n: nat): (r: set<nat>)
    ensures |r| == n
    ensures forall i: nat :: i in r <==> i < n
  {
    if n == 0 then {} else Range(n - 1) + {n - 1}
  }

  /** Counting attested inputs is enough to know that all of them are attested. */
  lemma FullCount(s: set<nat>, n: nat)
    requires forall i | i in s :: i < n
    ensures |s| == n <==> s == Range(n)
  {
    assert s <= Range(n);
    assert |Range(n) - s| == |Range(n)| - |s|;
  }

  /** The same transaction, up to the sentinels' attestations. */
  predicate SameTx(a: CompactTx, b: CompactTx) {
    a.id == b.id && a.inputs == b.inputs && a.outputs == b.outputs
  }

  /** Every slot that holds this id holds this transaction, with indices of its inputs. */
  ghost predicate Consistent(s: State, tx: CompactTx) {
    forall o | 0 <= o < |s.txs| && tx.id in s.txs[o] :: ConsistentEntry(s.txs[o][tx.id], tx)
  }

  ghost predicate ConsistentEntry(p: Pending, tx: CompactTx) {
    SameTx(p.tx, tx) && forall i | i in p.attested :: i < |tx.inputs|
  }

  lemma RecordAttests(s: State, offset: nat, tx: CompactTx, attested: set<nat>)
    requires s.Valid() && offset <= s.depth
    ensures var txs := Record(s, offset, tx, attested).txs;
            && Attested(txs, tx.id, |txs|) == Attested(s.txs, tx.id, |txs|) + attested
            && Holders(txs, tx.id, |txs|) == Holders(s.txs, tx.id, |txs|) + {offset}
  {
    var txs := Record(s, offset, tx, attested).txs;
    forall i | i in Attested(txs, tx.id, |txs|)
      ensures i in Attested(s.txs, tx.id, |txs|) + attested
    {
      var o :| 0 <= o < |txs| && tx.id in txs[o] && i in txs[o][tx.id].attested;
      if o != offset { assert s.txs[o] == txs[o]; }
    }
    forall i | i in Attested(s.txs, tx.id, |txs|) + attested
      ensures i in Attested(txs, tx.id, |txs|)
    {
      if i in attested {
        assert i in txs[offset][tx.id].attested;
      } else {
        var o :| 0 <= o < |txs| && tx.id in s.txs[o] && i in s.txs[o][tx.id].attested;
        assert i in txs[o][tx.id].attested;
      }
    }
  }

  lemma OldestAfterRecord(s: State, offset: nat, tx: CompactTx, attested: set<nat>)
    requires s.Valid() && offset <= s.depth
    ensures var txs := Record(s, offset, tx, attested).txs;
            var before := OldestHolder(s.txs, tx.id, |s.txs|);
            OldestHolder(txs, tx.id, |txs|) == if before > offset then before else offset
  {
    RecordAttests(s, offset, tx, attested);
    var txs := Record(s, offset, tx, attested).txs;
    var r, before := OldestHolder(txs, tx.id, |txs|), OldestHolder(s.txs, tx.id, |s.txs|);
    assert offset in Holders(txs, tx.id, |txs|);
    assert r in Holders(s.txs, tx.id, |txs|) + {offset};
    if before > offset {
      assert before in Holders(txs, tx.id, |txs|);
    }
  }

  /** The oldest slot that will hold the transaction once this notification is recorded. */
  function OldestWith(s: State, offset: nat, tx: CompactTx): (r: nat)
    requires s.Valid() && offset <= s.depth
    ensures offset <= r <= s.depth
  {
    var before := OldestHolder(s.txs, tx.id, |s.txs|);
    if before > offset then before else offset
  }

  predicate Covered(s: State, tx: CompactTx, attested: set<nat>)
    requires s.Valid()
  {
    Attested(s.txs, tx.id, |s.txs|) + attested == Range(|tx.inputs|)
  }

  /** What the oldest slot holds of the transaction once this notification is recorded. */
  function Oldest(s: State, offset: nat, tx: CompactTx): CompactTx
    requires s.Valid() && offset <= s.depth
  {
    var o := OldestWith(s, offset, tx);
    if tx.id in s.txs[o] then s.txs[o][tx.id].tx else tx
  }

  lemma RecordConsistent(s: State, offset: nat, tx: CompactTx, attested: set<nat>, t: CompactTx)
    requires s.Valid() && offset <= s.depth && Consistent(s, t)
    requires tx.id == t.id ==> SameTx(tx, t) && forall i | i in attested :: i < |t.inputs|
    ensures Consistent(Record(s, offset, tx, attested), t)
  {
  }

  lemma OldestRecorded(s: State, offset: nat, tx: CompactTx, attested: set<nat>)
    requires s.Valid() && offset <= s.depth && Consistent(s, tx)
    ensures var txs := Record(s, offset, tx, attested).txs;
            var o := OldestWith(s, offset, tx);
            tx.id in txs[o] && txs[o][tx.id].tx == Oldest(s, offset, tx) && SameTx(Oldest(s, offset, tx), tx)
  {
    var before := OldestHolder(s.txs, tx.id, |s.txs|);
    assert before > offset ==> before in Holders(s.txs, tx.id, |s.txs|);
  }

  lemma InsertOutcome(s: State, blockHeight: nat, tx: CompactTx, attested: set<nat>)
    requires s.Valid() && Consistent(s, tx) && forall i | i in attested :: i < |tx.inputs|
    requires Sub64(s.height, blockHeight) <= s.depth
    ensures var offset := Sub64(s.height, blockHeight);
            var s1 := Record(s, offset, tx, attested);
            var clashes := Clashes(s.spent, tx.inputs, OldestWith(s, offset, tx));
            Insert(s, blockHeight, tx, attested) ==
              if !Covered(s, tx, attested) then (s1, None)
              else if clashes != {} then (s1, Some(TxError(tx.id, InputsSpent(clashes))))
              else (Accept(s, Oldest(s, offset, tx)).(txs := Forget(s1.txs, tx.id)), None)
  {
    var offset := Sub64(s.height, blockHeight);
    var s1 := Record(s, offset, tx, attested);
    RecordAttests(s, offset, tx, attested);
    OldestAfterRecord(s, offset, tx, attested);
    RecordConsistent(s, offset, tx, attested, tx);
    OldestRecorded(s, offset, tx, attested);
    AttestedInRange(s1, tx);
    FullCount(Attested(s1.txs, tx.id, |s1.txs|), |tx.inputs|);
    assert ConsistentEntry(s1.txs[offset][tx.id], tx);
  }

  lemma AttestedInRange(s: State, tx: CompactTx)
    requires Consistent(s, tx)
    ensures forall i | i in Attested(s.txs, tx.id, |s.txs|) :: i < |tx.inputs|
  {
    forall i | i in Attested(s.txs, tx.id, |s.txs|) ensures i < |tx.inputs| {
      var o :| 0 <= o < |s.txs| && tx.id in s.txs[o] && i in s.txs[o][tx.id].attested;
      assert ConsistentEntry(s.txs[o][tx.id], tx);
    }
  }

  /** A notification that completes its transaction has the effect of the aggregate path, run on the copy in
      the oldest slot and with that slot's height, and leaves no copy behind; a notification that does not
      complete it, or that fails, leaves window and block untouched. */
  lemma NotificationAgreesWithAggregate(s: State, blockHeight: nat, tx: CompactTx, attested: set<nat>)
    requires s.Valid() && Consistent(s, tx) && forall i | i in attested :: i < |tx.inputs|
    requires Sub64(s.height, blockHeight) <= s.depth
    ensures var offset := Sub64(s.height, blockHeight);
            var oldest, t := Sub64(s.height, OldestWith(s, offset, tx)), Oldest(s, offset, tx);
            var (s', err) := Insert(s, blockHeight, tx, attested);
            var (a', aggregateErr) := InsertComplete(s, oldest, t);
            && SameTx(t, tx) && s'.height == s.height && s'.depth == s.depth
            && (Covered(s, tx, attested) ==>
                && s'.spent == a'.spent && s'.complete == a'.complete && err == aggregateErr
                && (err == None ==> forall o | 0 <= o < |s'.txs| :: tx.id !in s'.txs[o]))
            && (!Covered(s, tx, attested) || err != None ==>
                s'.spent == s.spent && s'.complete == s.complete)
  {
    var offset := Sub64(s.height, blockHeight);
    InsertOutcome(s, blockHeight, tx, attested);
    OldestRecorded(s, offset, tx, attested);
    AggregateOutcome(s, OldestWith(s, offset, tx), Oldest(s, offset, tx));
  }

  /** The aggregate path at the height of slot `o`. */
  lemma AggregateOutcome(s: State, o: nat, t: CompactTx)
    requires s.Valid() && o <= s.depth
    ensures var clashes := Clashes(s.spent, t.inputs, o);
            InsertComplete(s, Sub64(s.height, o), t) ==
            if clashes != {} then (s, Some(TxError(t.id, InputsSpent(clashes)))) else (Accept(s, t), None)
  {
    assert Sub64(s.height, Sub64(s.height, o)) == o;
  }

  // ---------------------------------------------------------------- over every run

  datatype Event =
    | Notified(height: nat, tx: CompactTx, attested: set<nat>)
    | Aggregated(oldest: nat, tx: CompactTx)
    | Cut

  ghost function Step(s: State, e: Event): (r: State)
    requires s.Valid()
    ensures r.Valid()
  {
    match e
    case Notified(h, tx, attested) => if InBounds(s, h, tx) then Insert(s, h, tx, attested).0 else s
    case Aggregated(h, tx) => InsertComplete(s, h, tx).0
    case Cut => if s.height + 1 < U64_RANGE then Rotate(s) else s
  }

  ghost function Run(depth: nat, events: seq<Event>): (s: State)
    requires depth + 1 < U64_RANGE
    ensures s.Valid()
  {
    if events == [] then Initial(depth) else Step(Run(depth, events[..|events| - 1]), events[|events| - 1])
  }

  /** Notifications of this id carry this transaction and indices of its inputs. */
  ghost predicate Genuine(e: Event, tx: CompactTx) {
    e.Notified? && e.tx.id == tx.id ==> SameTx(e.tx, tx) && forall i | i in e.attested :: i < |tx.inputs|
  }

  lemma ForgetConsistent(s: State, t: State, id: Hash, tx: CompactTx)
    requires Consistent(s, tx) && t.txs == Forget(s.txs, id)
    ensures Consistent(t, tx)
  {
    forall o | 0 <= o < |t.txs| && tx.id in t.txs[o] ensures ConsistentEntry(t.txs[o][tx.id], tx) {
      assert t.txs[o][tx.id] == s.txs[o][tx.id];
    }
  }

  lemma InsertConsistent(s: State, h: nat, n: CompactTx, attested: set<nat>, tx: CompactTx)
    requires s.Valid() && InBounds(s, h, n) && Consistent(s, tx) && Genuine(Notified(h, n, attested), tx)
    ensures Consistent(Insert(s, h, n, attested).0, tx)
  {
    var offset := Sub64(s.height, h);
    if !OutOfRange(s, offset, n) {
      RecordConsistent(s, offset, n, attested, tx);
      var s1, s' := Record(s, offset, n, attested), Insert(s, h, n, attested).0;
      if s'.txs != s1.txs {
        ForgetConsistent(s1, s', n.id, tx);
      }
    }
  }

  lemma RotateConsistent(s: State, tx: CompactTx)
    requires s.Valid() && Consistent(s, tx)
    ensures Consistent(Rotate(s), tx)
  {
    var t := Rotate(s);
    forall o | 0 <= o < |t.txs| && tx.id in t.txs[o] ensures ConsistentEntry(t.txs[o][tx.id], tx) {
      assert t.txs[o] == s.txs[o - 1];
    }
  }

  /** In every run of notifications, aggregates and blocks: if the notifications of an id carry one
      transaction, so do the slots. */
  lemma {:induction false} ConsistentInAnyRun(depth: nat, events: seq<Event>, tx: CompactTx)
    requires depth + 1 < U64_RANGE && forall k | 0 <= k < |events| :: Genuine(events[k], tx)
    ensures Consistent(Run(depth, events), tx)
  {
    if events != [] {
      var n := |events| - 1;
      var s := Run(depth, events[..n]);
      ConsistentInAnyRun(depth, events[..n], tx);
      match events[n]
      case Notified(h, t, attested) =>
        if InBounds(s, h, t) { InsertConsistent(s, h, t, attested, tx); }
      case Aggregated(h, t) =>
      case Cut => RotateConsistent(s, tx);
    }
  }
}

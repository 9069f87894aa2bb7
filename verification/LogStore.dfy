/** The raft log: entries numbered without gaps, kept in an ordered key-value store. */
module LogStore {
  import opened Common
  import opened Serialization

  /** A log entry as it is stored; what raft puts in it is not looked into. */
  type Payload = seq<byte>

  type Db = map<nat, Payload>

  /** A contiguous piece of a log: `entries[i]` has number `start + i`. */
  datatype Log = Log(start: nat, entries: seq<Payload>)
  {
    function Next(): nat { start + |entries| }

    function Has(k: nat): bool { start <= k < Next() }

    /** Entries `a` to `b - 1`. */
    function Slice(a: nat, b: nat): seq<Payload>
      requires start <= a <= b <= Next()
    {
      entries[a - start..b - start]
    }
  }

  /** The database holds exactly this log. */
  ghost predicate Holds(db: Db, log: Log) {
    forall k: nat :: HoldsAt(db, log, k)
  }

  ghost predicate HoldsAt(db: Db, log: Log, k: nat) {
    (k in db <==> log.Has(k)) && (k in db ==> db[k] == log.entries[k - log.start])
  }

  // ---------------------------------------------------------------- write batches

  datatype Op = Put(key: nat, value: Payload) | Delete(key: nat)

  function WriteOne(db: Db, op: Op): Db {
    if op.Put? then db[op.key := op.value] else db - {op.key}
  }

  /** The operations of a batch take effect in order. */
  function Write(db: Db, batch: seq<Op>): Db {
    if batch == [] then db else WriteOne(Write(db, batch[..|batch| - 1]), batch[|batch| - 1])
  }

  lemma WriteSnoc(db: Db, batch: seq<Op>, op: Op)
    ensures Write(db, batch + [op]) == WriteOne(Write(db, batch), op)
  {
    assert (batch + [op])[..|batch|] == batch;
  }

  // ---------------------------------------------------------------- what the operations do to the log

  /** Writing at an index cuts off everything after it. */
  function WrittenAt(log: Log, index: nat, e: Payload): Log
    requires log.start <= index <= log.Next()
  {
    log.(entries := log.Slice(log.start, index) + [e])
  }

  function Compacted(log: Log, last: nat): Log
    requires log.start <= last + 1
  {
    if last + 1 <= log.Next() then Log(last + 1, log.Slice(last + 1, log.Next())) else Log(last + 1, [])
  }

  /** What a log holds after writing at `index`: what was before it, the new entry, and nothing after it. */
  lemma WrittenEntry(log: Log, index: nat, e: Payload, k: nat)
    requires log.start <= index <= log.Next()
    ensures var r := WrittenAt(log, index, e);
            && (r.Has(k) <==> log.start <= k <= index) && r.start == log.start
            && (log.start <= k < index ==> r.entries[k - r.start] == log.entries[k - log.start])
            && r.entries[index - r.start] == e
  {
  }

  /** What a log holds after compacting up to `last`: what was after it, under the numbers it had. The next number
      does not go back. */
  lemma CompactedEntry(log: Log, last: nat, k: nat)
    requires log.start <= last + 1
    ensures var r := Compacted(log, last);
            && (r.Has(k) <==> log.Has(k) && k > last)
            && (r.Has(k) ==> r.entries[k - r.start] == log.entries[k - log.start])
            && r.start == last + 1 && r.Next() == if last + 1 <= log.Next() then log.Next() else last + 1
  {
  }

  /** Entries can be put at `index` without leaving a gap. */
  predicate Fitting(log: Log, index: nat, es: seq<Payload>) {
    es == [] || log.entries == [] || (index <= log.Next() && log.start <= index + |es|)
  }

  /** Entries from `index` on replace or extend what is there. A log that stays empty starts at 1 again. */
  function Applied(log: Log, index: nat, es: seq<Payload>): Log
    requires Fitting(log, index, es)
  {
    if es == [] then (if log.entries == [] then Log(1, []) else log)
    else if log.entries == [] then Log(index, es)
    else Log(if index < log.start then index else log.start, Before(log, index) + es + After(log, index + |es|))
  }

  function Before(log: Log, index: nat): (b: seq<Payload>)
    requires index <= log.Next()
    ensures |b| == if index < log.start then 0 else index - log.start
  {
    if index < log.start then [] else log.Slice(log.start, index)
  }

  function After(log: Log, index: nat): (a: seq<Payload>)
    requires log.start <= index
    ensures |a| == if index < log.Next() then log.Next() - index else 0
  {
    if index < log.Next() then log.Slice(index, log.Next()) else []
  }

  lemma Glue(b: seq<Payload>, es: seq<Payload>, a: seq<Payload>, i: nat)
    requires i < |b| + |es| + |a|
    ensures (b + es + a)[i] ==
      if i < |b| then b[i] else if i < |b| + |es| then es[i - |b|] else a[i - |b| - |es|]
  {
  }

  /** What an entry of the log is after entries have been put at `index`. */
  lemma AppliedAt(log: Log, index: nat, es: seq<Payload>, k: nat)
    requires Fitting(log, index, es)
    ensures var r := Applied(log, index, es);
            && (r.Has(k) <==> log.Has(k) || index <= k < index + |es|)
            && (index <= k < index + |es| ==> r.entries[k - r.start] == es[k - index])
            && (log.Has(k) && !(index <= k < index + |es|) ==> r.entries[k - r.start] == log.entries[k - log.start])
  {
    if es != [] && log.entries != [] {
      var r := Applied(log, index, es);
      var b, a := Before(log, index), After(log, index + |es|);
      if r.Has(k) {
        Glue(b, es, a, k - r.start);
      }
    }
  }

  // ---------------------------------------------------------------- loading

  ghost predicate IsFirst(db: Db, k: nat) { k in db && forall j | j in db :: k <= j }

  ghost predicate IsLast(db: Db, k: nat) { k in db && forall j | j in db :: j <= k }

  lemma FirstAndLast(db: Db, log: Log)
    requires Holds(db, log) && log.entries != []
    ensures IsFirst(db, log.start) && IsLast(db, log.Next() - 1)
    ensures forall k | IsFirst(db, k) :: k == log.start
    ensures forall k | IsLast(db, k) :: k == log.Next() - 1
  {
    assert HoldsAt(db, log, log.start) && HoldsAt(db, log, log.Next() - 1);
    forall j | j in db ensures log.Has(j) { assert HoldsAt(db, log, j); }
  }

  // ---------------------------------------------------------------- packs

  /** An entry with its length in front. */
  function Frame(e: Payload): seq<byte> { LittleEndian(|e|, 8) + e }

  function Body(es: seq<Payload>): seq<byte> {
    if es == [] then [] else Frame(es[0]) + Body(es[1..])
  }

  /** A count, and then the entries. */
  function Pack(es: seq<Payload>): seq<byte> { LittleEndian(|es|, 8) + Body(es) }

  predicate Packable(es: seq<Payload>) {
    |es| < U64_RANGE && forall i | 0 <= i < |es| :: |es[i]| < U64_RANGE
  }

  /** Reads `n` entries; None if the buffer ends too early. */
  function ReadEntries(b: seq<byte>, n: nat): Option<(seq<Payload>, seq<byte>)> {
    if n == 0 then Some(([], b))
    else if |b| < 8 || |b| - 8 < FromLittleEndian(b[..8]) then None
    else
      var end := 8 + FromLittleEndian(b[..8]);
      match ReadEntries(b[end..], n - 1)
      case None => None
      case Some((es, rest)) => Some(([b[8..end]] + es, rest))
  }

  function Unpack(b: seq<byte>): Option<seq<Payload>> {
    if |b| < 8 then None
    else
      match ReadEntries(b[8..], FromLittleEndian(b[..8]))
      case None => None
      case Some((es, _)) => Some(es)
  }

  lemma FrameSplit(e: Payload, rest: seq<byte>)
    requires |e| < U64_RANGE
    ensures var b := Frame(e) + rest;
            && |b| >= 8 && FromLittleEndian(b[..8]) == |e| && |b| - 8 >= |e|
            && b[8..8 + |e|] == e && b[8 + |e|..] == rest
  {
    LengthPrefix(|e|, e + rest);
    assert Frame(e) + rest == LittleEndian(|e|, 8) + (e + rest);
  }

  lemma {:induction false} ReadBody(es: seq<Payload>, rest: seq<byte>)
    requires Packable(es)
    ensures ReadEntries(Body(es) + rest, |es|) == Some((es, rest))
  {
    if es == [] {
      assert Body(es) + rest == rest;
    } else {
      ReadBody(es[1..], rest);
      ReadFrame(es[0], Body(es[1..]) + rest, |es| - 1, es[1..], rest);
      BodyFirst(es, rest);
    }
  }

  lemma BodyFirst(es: seq<Payload>, rest: seq<byte>)
    requires es != []
    ensures Body(es) + rest == Frame(es[0]) + (Body(es[1..]) + rest) && [es[0]] + es[1..] == es
  {
    Associate(Frame(es[0]), Body(es[1..]), rest);
  }

  lemma Associate(a: seq<byte>, b: seq<byte>, c: seq<byte>)
    ensures a + b + c == a + (b + c)
  {
  }

  lemma ReadFrame(e: Payload, more: seq<byte>, n: nat, es: seq<Payload>, rest: seq<byte>)
    requires |e| < U64_RANGE && ReadEntries(more, n) == Some((es, rest))
    ensures ReadEntries(Frame(e) + more, n + 1) == Some(([e] + es, rest))
  {
    FrameSplit(e, more);
  }

  /** Unpacking a pack gives its entries, whatever follows in the buffer. */
  lemma UnpackPack(es: seq<Payload>, rest: seq<byte>)
    requires Packable(es)
    ensures Unpack(Pack(es) + rest) == Some(es)
  {
    LengthPrefix(|es|, Body(es) + rest);
    assert Pack(es) + rest == LittleEndian(|es|, 8) + (Body(es) + rest);
    ReadBody(es, rest);
  }

  lemma {:induction false} BodySnoc(es: seq<Payload>, e: Payload)
    ensures Body(es + [e]) == Body(es) + Frame(e)
  {
    if es == [] {
      assert ([] + [e])[1..] == [];
      assert Body([e]) == Frame(e) + Body([]);
    } else {
      assert (es + [e])[1..] == es[1..] + [e];
      BodySnoc(es[1..], e);
    }
  }
}

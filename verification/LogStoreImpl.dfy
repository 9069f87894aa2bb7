/** The log store as the code runs it. */
module LogStoreImpl {
  import opened Common
  import opened Serialization
  import opened LogStore

  class Store {
    var db: Db
    var start: nat
    var next: nat
    ghost var log: Log

    ghost predicate Valid()
      reads this
    {
      Holds(db, log) && start == log.start && next == log.Next()
    }

    /** An empty log starts at 1. */
    constructor ()
      ensures Valid() && log == Log(1, [])
    {
      db := map[];
      start, next := 1, 1;
      log := Log(1, []);
    }

    method Append(e: Payload) returns (index: nat)
      requires Valid()
      modifies this
      ensures Valid() && log == old(log).(entries := old(log.entries) + [e]) && index == old(next)
    {
      db := db[next := e];
      log := log.(entries := log.entries + [e]);
      next := next + 1;
      index := next - 1;
      forall k: nat ensures HoldsAt(db, log, k) { assert HoldsAt(old(db), old(log), k); }
    }

    /** Deletes keys `first` to `last - 1` in one batch. */
    method DeleteBatch(batch: seq<Op>, first: nat, last: nat) returns (r: seq<Op>)
      requires first <= last
      ensures forall d: Db :: Write(d, r) == Without(Write(d, batch), first, last)
    {
      r := batch;
      for i := first to last
        invariant forall d: Db :: Write(d, r) == Without(Write(d, batch), first, i)
      {
        ghost var was := r;
        r := r + [Delete(i)];
        forall d: Db ensures Write(d, r) == Without(Write(d, batch), first, i + 1) {
          WriteSnoc(d, was, Delete(i));
        }
      }
    }

    /** Replaces an entry, or adds one at the end, and drops everything after it. */
    method WriteAt(index: nat, e: Payload)
      requires Valid() && start <= index <= next
      modifies this
      ensures Valid() && log == WrittenAt(old(log), index, e)
    {
      var batch := [] + [Put(index, e)];
      WriteSnoc(db, [], Put(index, e));
      if index < next {
        batch := DeleteBatch(batch, index + 1, next);
      }
      db := Write(db, batch);
      log := WrittenAt(log, index, e);
      next := index + 1;
      forall k: nat ensures HoldsAt(db, log, k) { assert HoldsAt(old(db), old(log), k); }
    }

    method Compact(last: nat)
      requires Valid() && start <= last + 1
      modifies this
      ensures Valid() && log == Compacted(old(log), last)
    {
      var batch := DeleteBatch([], start, last + 1);
      assert Write(db, []) == db;
      db := Write(db, batch);
      log := Compacted(log, last);
      start := last + 1;
      next := if next < start then start else next;
      forall k: nat ensures HoldsAt(db, log, k) { assert HoldsAt(old(db), old(log), k); }
    }

    method LogEntries(first: nat, end: nat) returns (es: seq<Payload>)
      requires Valid() && start <= first <= end <= next
      ensures es == log.Slice(first, end)
    {
      es := [];
      for i := first to end
        invariant es == log.Slice(first, i)
      {
        assert HoldsAt(db, log, i);
        es := es + [db[i]];
      }
    }

    method EntryAt(index: nat) returns (e: Option<Payload>)
      requires Valid()
      ensures e == if log.Has(index) then Some(log.entries[index - log.start]) else None
    {
      assert HoldsAt(db, log, index);
      e := if index in db then Some(db[index]) else None;
    }

    /** Finds out where the log starts and ends from what is stored. The numbers are those of the log if
        and only if the log is not empty or starts at 1. */
    method Load(ghost stored: Log)
      requires Holds(db, stored)
      modifies this`start, this`next
      ensures stored.entries != [] || stored.start == 1 <==> start == stored.start && next == stored.Next()
      ensures stored.entries == [] ==> start == 1 && next == 1
    {
      assert HoldsAt(db, stored, stored.start);
      if db == map[] {
        next, start := 0 + 1, 1;
      } else {
        var k :| k in db;
        assert HoldsAt(db, stored, k);
        FirstAndLast(db, stored);
        var last :| last in db && forall j | j in db :: j <= last;
        var first :| first in db && forall j | j in db :: first <= j;
        assert IsLast(db, last) && IsFirst(db, first);
        next, start := last + 1, first;
      }
    }

    method MakePack(index: nat, count: nat) returns (pack: seq<byte>)
      requires Valid() && start <= index && index + count <= next
      ensures pack == Pack(log.Slice(index, index + count))
    {
      var es := LogEntries(index, index + count);
      pack := LittleEndian(count, 8);
      for i := 0 to |es|
        invariant pack == LittleEndian(count, 8) + Body(es[..i])
      {
        BodySnoc(es[..i], es[i]);
        assert es[..i + 1] == es[..i] + [es[i]];
        pack := pack + LittleEndian(|es[i]|, 8) + es[i];
      }
      assert es[..|es|] == es;
    }

    /** Puts entries from `index` on. */
    method PutBatch(index: nat, es: seq<Payload>) returns (batch: seq<Op>)
      ensures forall d: Db :: Write(d, batch) == Over(d, index, es)
    {
      batch := [];
      assert forall d: Db :: Write(d, batch) == Over(d, index, es[..0]);
      for i := 0 to |es|
        invariant forall d: Db :: Write(d, batch) == Over(d, index, es[..i])
      {
        ghost var was := batch;
        batch := batch + [Put(index + i, es[i])];
        forall d: Db ensures Write(d, batch) == Over(d, index, es[..i + 1]) {
          WriteSnoc(d, was, Put(index + i, es[i]));
          OverSnoc(d, index, es, i);
        }
      }
      assert es[..|es|] == es;
    }

    /** Stores the entries of a pack; false, and nothing stored, if the pack is cut short. */
    method ApplyPack(index: nat, pack: seq<byte>) returns (ok: bool)
      requires Valid() && (Unpack(pack).Some? ==> Fitting(log, index, Unpack(pack).value))
      modifies this
      ensures Valid() && (ok <==> Unpack(pack).Some?)
      ensures log == if ok then Applied(old(log), index, Unpack(pack).value) else old(log)
    {
      var unpacked := ReadPack(pack);
      if unpacked.None? {
        return false;
      }
      var es := unpacked.value;
      var batch := PutBatch(index, es);
      ghost var before := db;
      db := Write(db, batch);
      OverHolds(before, log, index, es);
      log := Applied(log, index, es);
      Load(log);
      return true;
    }
  }

  /** A pack taken from one store and applied to another copies the entries. */
  method Transfer(a: Store, b: Store, index: nat, count: nat)
    requires a != b && a.Valid() && b.Valid() && a.start <= index && index + count <= a.next
    requires Packable(a.log.Slice(index, index + count)) && Fitting(b.log, index, a.log.Slice(index, index + count))
    modifies b
    ensures b.Valid() && b.log == Applied(old(b.log), index, a.log.Slice(index, index + count))
  {
    var pack := a.MakePack(index, count);
    ghost var es := a.log.Slice(index, index + count);
    UnpackPack(es, []);
    assert Pack(es) + [] == Pack(es);
    var ok := b.ApplyPack(index, pack);
  }

  method ReadPack(pack: seq<byte>) returns (r: Option<seq<Payload>>)
    ensures r == Unpack(pack)
  {
    if |pack| < 8 {
      return None;
    }
    var count, cursor := FromLittleEndian(pack[..8]), 8;
    var es: seq<Payload> := [];
    ghost var whole := ReadEntries(pack[8..], count);
    PrefixedNothing(whole);
    for i := 0 to count
      invariant 8 <= cursor <= |pack| && |es| == i
      invariant whole == Prefixed(es, ReadEntries(pack[cursor..], count - i))
    {
      if |pack| - cursor < 8 {
        return None;
      }
      var len := FromLittleEndian(pack[cursor..cursor + 8]);
      assert pack[cursor..][..8] == pack[cursor..cursor + 8];
      if |pack| - cursor - 8 < len {
        return None;
      }
      var e := pack[cursor + 8..cursor + 8 + len];
      assert pack[cursor..][8..8 + len] == e && pack[cursor..][8 + len..] == pack[cursor + 8 + len..];
      PrefixedMore(es, e, ReadEntries(pack[cursor + 8 + len..], count - i - 1));
      es, cursor := es + [e], cursor + 8 + len;
    }
    assert es + [] == es;
    return Some(es);
  }

  /** A result with entries in front. */
  ghost function Prefixed(es: seq<Payload>, r: Option<(seq<Payload>, seq<byte>)>): Option<(seq<Payload>, seq<byte>)> {
    match r
    case None => None
    case Some((more, rest)) => Some((es + more, rest))
  }

  lemma PrefixedMore(es: seq<Payload>, e: Payload, r: Option<(seq<Payload>, seq<byte>)>)
    ensures Prefixed(es, Prefixed([e], r)) == Prefixed(es + [e], r)
  {
    match r
    case None =>
    case Some((more, rest)) => assert es + ([e] + more) == es + [e] + more;
  }

  lemma PrefixedNothing(r: Option<(seq<Payload>, seq<byte>)>)
    ensures Prefixed([], r) == r
  {
    match r
    case None =>
    case Some((more, rest)) => assert [] + more == more;
  }

  /** `d` with entries put over it from `index` on. */
  ghost function Over(d: Db, index: nat, es: seq<Payload>): Db {
    if es == [] then d else Over(d, index, es[..|es| - 1])[index + |es| - 1 := es[|es| - 1]]
  }

  lemma OverSnoc(d: Db, index: nat, es: seq<Payload>, i: nat)
    requires i < |es|
    ensures Over(d, index, es[..i + 1]) == Over(d, index, es[..i])[index + i := es[i]]
  {
    assert es[..i + 1][..i] == es[..i];
  }

  lemma {:induction false} OverAt(d: Db, index: nat, es: seq<Payload>, k: nat)
    ensures var o := Over(d, index, es);
            && (k in o <==> k in d || index <= k < index + |es|)
            && (index <= k < index + |es| ==> o[k] == es[k - index])
            && (k in d && !(index <= k < index + |es|) ==> o[k] == d[k])
  {
    if es != [] {
      OverAt(d, index, es[..|es| - 1], k);
    }
  }

  lemma OverHolds(d: Db, log: Log, index: nat, es: seq<Payload>)
    requires Holds(d, log) && Fitting(log, index, es)
    ensures Holds(Over(d, index, es), Applied(log, index, es))
  {
    forall k: nat ensures HoldsAt(Over(d, index, es), Applied(log, index, es), k) {
      assert HoldsAt(d, log, k);
      AppliedAt(log, index, es, k);
      OverAt(d, index, es, k);
    }
  }

  /** `d` without the keys `first` to `last - 1`. */
  ghost function Without(d: Db, first: nat, last: nat): Db {
    map k | k in d && !(first <= k < last) :: d[k]
  }
}

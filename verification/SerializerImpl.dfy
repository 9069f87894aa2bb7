/** The serializer as a cursor over a byte buffer. */
module SerializerImpl {
  import opened Common
  import opened Codec
  import opened Serialization

  /** `data` laid over `b` from position `at`, lengthening `b` where needed. */
  function Overwrite(b: seq<byte>, at: nat, data: seq<byte>): (r: seq<byte>)
    requires at <= |b|
    ensures |r| >= at + |data| && r[at..at + |data|] == data && r[..at] == b[..at]
    ensures |b| <= at + |data| ==> r == b[..at] + data
  {
    b[..at] + data + if at + |data| <= |b| then b[at + |data|..] else []
  }

  lemma OverwriteTwice(b: seq<byte>, at: nat, d: seq<byte>, e: seq<byte>)
    requires at <= |b|
    ensures Overwrite(Overwrite(b, at, d), at + |d|, e) == Overwrite(b, at, d + e)
  {
  }

  lemma WroteBoth(before: seq<byte>, at: nat, d: seq<byte>, e: seq<byte>, mid: seq<byte>, after: seq<byte>)
    requires at <= |before| && mid == Overwrite(before, at, d) && after == Overwrite(mid, at + |d|, e)
    ensures after == Overwrite(before, at, d + e) && at + |d| + |e| == at + |d + e| <= |after|
  {
    OverwriteTwice(before, at, d, e);
  }

  /** A count and the first `i` parts. */
  ghost function CountedPrefix(parts: seq<seq<byte>>, i: nat): seq<byte>
    requires i <= |parts|
  {
    LittleEndian(|parts|, 8) + Concat(parts[..i])
  }

  lemma FirstParts(parts: seq<seq<byte>>)
    ensures CountedPrefix(parts, 0) == LittleEndian(|parts|, 8)
    ensures CountedPrefix(parts, |parts|) == Counted(parts)
  {
    assert parts[..|parts|] == parts;
  }

  lemma NextPart(parts: seq<seq<byte>>, i: nat)
    requires i < |parts|
    ensures CountedPrefix(parts, i + 1) == CountedPrefix(parts, i) + parts[i]
  {
    ConcatSnoc(parts[..i], parts[i]);
    assert parts[..i + 1] == parts[..i] + [parts[i]];
  }

  class BufferSerializer {
    var pkt: seq<byte>
    var cursor: nat
    var valid: bool
    /** How many elements are reserved at a time while reading a counted container. */
    const chunk: nat

    constructor (pkt: seq<byte>, chunk: nat)
      ensures this.pkt == pkt && this.chunk == chunk && cursor == 0 && valid
    {
      this.pkt := pkt;
      this.chunk := chunk;
      cursor := 0;
      valid := true;
    }

    method Write(data: seq<byte>)
      requires cursor <= |pkt|
      modifies `pkt, `cursor
      ensures pkt == Overwrite(old(pkt), old(cursor), data)
      ensures cursor == old(cursor) + |data| <= |pkt|
    {
      if cursor + |data| > |pkt| {
        pkt := pkt + seq(cursor + |data| - |pkt|, _ => 0);
      }
      pkt := pkt[..cursor] + data + pkt[cursor + |data|..];
      cursor := cursor + |data|;
    }

    method Read(n: nat) returns (data: seq<byte>)
      requires cursor <= |pkt|
      modifies `cursor, `valid
      ensures old(cursor) <= cursor <= |pkt|
      ensures valid == (old(valid) && old(cursor) + n <= |pkt|)
      ensures old(cursor) + n <= |pkt| ==> data == pkt[old(cursor)..cursor] && cursor == old(cursor) + n
      ensures old(cursor) + n > |pkt| ==> data == [] && cursor == old(cursor)
    {
      if cursor + n > |pkt| {
        valid := false;
        return [];
      }
      data := pkt[cursor..cursor + n];
      cursor := cursor + n;
    }

    /** `r` is what reading from `from` should give; this is how it shows in the object. */
    ghost predicate Shows<T>(wasValid: bool, r: Parsed<T>, v: T)
      reads this
    {
      && cursor <= |pkt|
      && valid == (wasValid && r.Some?)
      && (valid ==> v == r.value.0 && pkt[cursor..] == r.value.1)
    }

    method GetNumber(k: nat) returns (n: nat)
      requires cursor <= |pkt|
      modifies `cursor, `valid
      ensures Shows(old(valid), Decode(Int(k), pkt[old(cursor)..]), Number(n))
      ensures old(cursor) <= cursor
    {
      var data := Read(k);
      n := FromLittleEndian(data);
      assert valid ==> data == pkt[old(cursor)..][..k];
      assert valid ==> pkt[old(cursor)..][k..] == pkt[cursor..];
    }

    /** Reads `len` elements, reserving space for a chunk at a time. */
    method GetElements(e: Schema, len: nat) returns (vec: seq<Value>)
      requires Readable(e) && valid && cursor <= |pkt| && chunk > 0
      modifies `cursor, `valid
      ensures Shows(true, ReadList(Decoder(e), len, [], pkt[old(cursor)..]), vec)
      ensures old(cursor) <= cursor
      decreases e, 4
    {
      vec := [];
      ghost var read, all := Decoder(e), ReadList(Decoder(e), len, [], pkt[cursor..]);
      var reserved := 0;
      while reserved < len
        invariant valid && old(cursor) <= cursor <= |pkt| && |vec| == reserved <= len
        invariant all == ReadList(read, len, vec, pkt[cursor..])
      {
        reserved := if reserved + chunk < len then reserved + chunk else len;
        vec := FillElements(e, vec, len, reserved);
        if !valid {
          return;
        }
      }
    }

    /** Reads elements until there are `reserved` of them. */
    method FillElements(e: Schema, some: seq<Value>, ghost len: nat, reserved: nat) returns (vec: seq<Value>)
      requires Readable(e) && valid && cursor <= |pkt| && chunk > 0 && |some| <= reserved <= len
      modifies `cursor, `valid
      ensures old(cursor) <= cursor <= |pkt|
      ensures var all := ReadList(Decoder(e), len, some, pkt[old(cursor)..]);
        if valid then |vec| == reserved && all == ReadList(Decoder(e), len, vec, pkt[cursor..]) else all.None?
      decreases e, 4, 0
    {
      vec := some;
      ghost var read, all := Decoder(e), ReadList(Decoder(e), len, some, pkt[cursor..]);
      while |vec| < reserved
        invariant valid && old(cursor) <= cursor <= |pkt| && |vec| <= reserved
        invariant all == ReadList(read, len, vec, pkt[cursor..])
      {
        var val := Get(e);
        if !valid {
          return;
        }
        vec := vec + [val];
      }
    }

    method GetVector(e: Schema) returns (vec: seq<Value>)
      requires Readable(e) && cursor <= |pkt| && chunk > 0
      modifies `cursor, `valid
      ensures Shows(old(valid), Decode(Vector(e), pkt[old(cursor)..]), List(vec))
      ensures old(cursor) <= cursor
      decreases e, 5
    {
      vec := [];
      var len := GetNumber(8);
      if !valid {
        return;
      }
      assert pkt[cursor..] == pkt[old(cursor)..][8..];
      vec := GetElements(e, len);
    }

    method GetMembersInOrder(e: Schema, len: nat) returns (members: set<Value>, ghost vec: seq<Value>)
      requires Readable(e) && valid && cursor <= |pkt| && chunk > 0
      modifies `cursor, `valid
      ensures Shows(true, ReadList(Decoder(e), len, [], pkt[old(cursor)..]), vec)
      ensures old(cursor) <= cursor && members == Members(vec)
      decreases e, 4
    {
      members, vec := {}, [];
      ghost var read, all := Decoder(e), ReadList(Decoder(e), len, [], pkt[cursor..]);
      for i := 0 to len
        invariant valid && old(cursor) <= cursor <= |pkt| && |vec| == i && members == Members(vec)
        invariant all == ReadList(read, len, vec, pkt[cursor..])
      {
        var key := Get(e);
        if !valid {
          return;
        }
        MembersSnoc(vec, key);
        members := members + {key};
        vec := vec + [key];
      }
    }

    method GetOrderedSet(e: Schema) returns (members: set<Value>)
      requires Readable(e) && cursor <= |pkt| && chunk > 0
      modifies `cursor, `valid
      ensures Shows(old(valid), Decode(OrderedSet(e), pkt[old(cursor)..]), Bag(members))
      ensures old(cursor) <= cursor
      decreases e, 5
    {
      members := {};
      var len := GetNumber(8);
      if !valid {
        return;
      }
      assert pkt[cursor..] == pkt[old(cursor)..][8..];
      ghost var vec;
      members, vec := GetMembersInOrder(e, len);
    }

    /** Reads members until there are `len` different ones. */
    method GetMembers(e: Schema, len: nat) returns (members: set<Value>)
      requires Readable(e) && Width(e) > 0 && valid && cursor <= |pkt| && chunk > 0
      modifies `cursor, `valid
      ensures Shows(true, ReadSet(Decoder(e), len, {}, pkt[old(cursor)..]), members)
      ensures old(cursor) <= cursor
      decreases e, 4
    {
      members := {};
      ghost var read, all := Decoder(e), ReadSet(Decoder(e), len, {}, pkt[cursor..]);
      var reserved := 0;
      while reserved < len
        invariant valid && old(cursor) <= cursor <= |pkt| && |members| == reserved <= len
        invariant all == ReadSet(read, len, members, pkt[cursor..])
      {
        reserved := if reserved + chunk < len then reserved + chunk else len;
        members := FillMembers(e, members, len, reserved);
        if !valid {
          return;
        }
      }
    }

    /** Reads members until there are `reserved` different ones. */
    method FillMembers(e: Schema, some: set<Value>, ghost len: nat, reserved: nat) returns (members: set<Value>)
      requires Readable(e) && Width(e) > 0 && valid && cursor <= |pkt| && chunk > 0 && |some| <= reserved <= len
      modifies `cursor, `valid
      ensures old(cursor) <= cursor <= |pkt|
      ensures var all := ReadSet(Decoder(e), len, some, pkt[old(cursor)..]);
        if valid then |members| == reserved && all == ReadSet(Decoder(e), len, members, pkt[cursor..]) else all.None?
      decreases e, 4, 0
    {
      members := some;
      ghost var read, all := Decoder(e), ReadSet(Decoder(e), len, some, pkt[cursor..]);
      while |members| < reserved
        invariant valid && old(cursor) <= cursor <= |pkt| && |members| <= reserved
        invariant all == ReadSet(read, len, members, pkt[cursor..])
        decreases |pkt| - cursor
      {
        var key := Get(e);
        if !valid {
          return;
        }
        members := members + {key};
      }
    }

    method GetUnorderedSet(e: Schema) returns (members: set<Value>)
      requires Readable(e) && Width(e) > 0 && cursor <= |pkt| && chunk > 0
      modifies `cursor, `valid
      ensures Shows(old(valid), Decode(UnorderedSet(e), pkt[old(cursor)..]), Bag(members))
      ensures old(cursor) <= cursor
      decreases e, 5
    {
      members := {};
      var len := GetNumber(8);
      if !valid {
        return;
      }
      assert pkt[cursor..] == pkt[old(cursor)..][8..];
      members := GetMembers(e, len);
    }

    method GetEntries(s: Schema, len: nat) returns (entries: map<Value, Value>)
      requires Readable(s) && s.UnorderedMap? && valid && cursor <= |pkt| && chunk > 0
      modifies `cursor, `valid
      ensures Shows(true, ReadMap(EntryReader(s), len, map[], pkt[old(cursor)..]), entries)
      ensures old(cursor) <= cursor
      decreases s, 1
    {
      entries := map[];
      ghost var read := EntryReader(s);
      ghost var all := ReadMap(read, len, map[], pkt[cursor..]);
      var reserved := 0;
      while reserved < len
        invariant valid && old(cursor) <= cursor <= |pkt| && |entries| == reserved <= len
        invariant all == ReadMap(read, len, entries, pkt[cursor..])
      {
        reserved := if reserved + chunk < len then reserved + chunk else len;
        entries := FillEntries(s, entries, len, reserved);
        if !valid {
          return;
        }
      }
    }

    /** Reads entries until there are `reserved` of them. */
    method FillEntries(s: Schema, some: map<Value, Value>, ghost len: nat, reserved: nat)
      returns (entries: map<Value, Value>)
      requires Readable(s) && s.UnorderedMap? && valid && cursor <= |pkt| && chunk > 0 && |some| <= reserved <= len
      modifies `cursor, `valid
      ensures old(cursor) <= cursor <= |pkt|
      ensures var all := ReadMap(EntryReader(s), len, some, pkt[old(cursor)..]);
        if valid then |entries| == reserved && all == ReadMap(EntryReader(s), len, entries, pkt[cursor..])
        else all.None?
      decreases s, 0, 1
    {
      entries := some;
      ghost var read, all := EntryReader(s), ReadMap(EntryReader(s), len, some, pkt[cursor..]);
      while |entries| < reserved
        invariant valid && old(cursor) <= cursor <= |pkt| && |entries| <= reserved
        invariant all == ReadMap(read, len, entries, pkt[cursor..])
        decreases |pkt| - cursor
      {
        var entry := GetEntry(s);
        if !valid {
          return;
        }
        entries := Codec.Put(entries, entry.0, entry.1);
      }
    }

    method GetEntry(s: Schema) returns (entry: (Value, Value))
      requires Readable(s) && s.UnorderedMap? && cursor <= |pkt| && chunk > 0
      modifies `cursor, `valid
      ensures Shows(old(valid), EntryReader(s)(pkt[old(cursor)..]), entry)
      ensures old(cursor) <= cursor
      decreases s, 0, 0
    {
      entry := (Unit, Unit);
      var key := Get(s.key);
      if !valid {
        return;
      }
      var val := Get(s.val);
      entry := (key, val);
    }

    method GetUnorderedMap(s: Schema) returns (entries: map<Value, Value>)
      requires Readable(s) && s.UnorderedMap? && cursor <= |pkt| && chunk > 0
      modifies `cursor, `valid
      ensures Shows(old(valid), Decode(s, pkt[old(cursor)..]), Table(entries))
      ensures old(cursor) <= cursor
      decreases s, 2
    {
      entries := map[];
      var len := GetNumber(8);
      if !valid {
        return;
      }
      assert pkt[cursor..] == pkt[old(cursor)..][8..];
      entries := GetEntries(s, len);
    }

    /** Reads one value, as the schema directs. */
    method Get(s: Schema) returns (v: Value)
      requires Readable(s) && cursor <= |pkt| && chunk > 0
      modifies `cursor, `valid
      ensures Shows(old(valid), Decode(s, pkt[old(cursor)..]), v)
      ensures old(cursor) <= cursor
      decreases s, 3
    {
      match s
      case Empty =>
        v := Unit;
      case Int(k) =>
        var n := GetNumber(k);
        v := Number(n);
      case Array(n) =>
        var data := Read(n);
        v := Bytes(data);
        assert valid ==> data == pkt[old(cursor)..][..n];
        assert valid ==> pkt[old(cursor)..][n..] == pkt[cursor..];
      case Optional(e) =>
        v := GetOptional(e);
      case Pair(s1, s2) =>
        var a := Get(s1);
        var b := Get(s2);
        v := Two(a, b);
      case Vector(e) =>
        var vec := GetVector(e);
        v := List(vec);
      case OrderedSet(e) =>
        var members := GetOrderedSet(e);
        v := Bag(members);
      case UnorderedSet(e) =>
        var members := GetUnorderedSet(e);
        v := Bag(members);
      case UnorderedMap(_, _) =>
        var entries := GetUnorderedMap(s);
        v := Table(entries);
      case Variant(alts) =>
        v := GetVariant(alts);
    }

    method GetOptional(e: Schema) returns (v: Value)
      requires Readable(e) && cursor <= |pkt| && chunk > 0
      modifies `cursor, `valid
      ensures Shows(old(valid), Decode(Optional(e), pkt[old(cursor)..]), v)
      ensures old(cursor) <= cursor
      decreases e, 5
    {
      v := Nothing;
      var has := Read(1);
      if !valid {
        return;
      }
      assert has[0] == pkt[old(cursor)..][0] && pkt[old(cursor)..][1..] == pkt[cursor..];
      if has[0] != 0 {
        var inner := Get(e);
        v := Just(inner);
      }
    }

    method GetVariant(alts: seq<Schema>) returns (v: Value)
      requires Readable(Variant(alts)) && cursor <= |pkt| && chunk > 0
      modifies `cursor, `valid
      ensures Shows(old(valid), Decode(Variant(alts), pkt[old(cursor)..]), v)
      ensures old(cursor) <= cursor
      decreases Variant(alts), 0
    {
      v := Unit;
      var idx := Read(1);
      if !valid {
        return;
      }
      assert idx[0] == pkt[old(cursor)..][0] && pkt[old(cursor)..][1..] == pkt[cursor..];
      if idx[0] as nat >= |alts| {
        valid := false;
        return;
      }
      var inner := Get(alts[idx[0] as nat]);
      v := Choice(idx[0] as nat, inner);
    }

    /** `data` has been written over `before` from position `at`. */
    ghost predicate Wrote(before: seq<byte>, at: nat, data: seq<byte>)
      requires at <= |before|
      reads this
    {
      pkt == Overwrite(before, at, data) && cursor == at + |data| && cursor <= |pkt|
    }

    /** Writes one value, as the schema directs; containers go out in the order of the layout. */
    method Put(s: Schema, c: Layout)
      requires Typed(s, c) && cursor <= |pkt|
      modifies `pkt, `cursor
      ensures Wrote(old(pkt), old(cursor), Encode(s, c))
      decreases s, 1
    {
      match s
      case Empty =>
      case Int(k) => Write(LittleEndian(c.n, k));
      case Array(_) => Write(c.bytes);
      case Optional(e) => PutOptional(e, c);
      case Pair(s1, s2) => PutPair(s1, s2, c.a, c.b);
      case Vector(e) => PutCounted(e, c.elems);
      case OrderedSet(e) => PutCounted(e, c.order);
      case UnorderedSet(e) => PutCounted(e, c.order);
      case UnorderedMap(_, _) => PutEntries(s, c.entries);
      case Variant(alts) => PutVariant(alts, c);
    }

    method PutPair(s1: Schema, s2: Schema, a: Layout, b: Layout)
      requires Typed(s1, a) && Typed(s2, b) && cursor <= |pkt|
      modifies `pkt, `cursor
      ensures Wrote(old(pkt), old(cursor), Encode(s1, a) + Encode(s2, b))
      decreases Pair(s1, s2), 0
    {
      ghost var before, at := pkt, cursor;
      Put(s1, a);
      PutNext(s2, b, before, at, Encode(s1, a));
    }

    method PutVariant(alts: seq<Schema>, c: Layout)
      requires Typed(Variant(alts), c) && cursor <= |pkt|
      modifies `pkt, `cursor
      ensures Wrote(old(pkt), old(cursor), Encode(Variant(alts), c))
      decreases Variant(alts), 0
    {
      OverwriteTwice(pkt, cursor, [c.index as byte], Encode(alts[c.index], c.chosen));
      Write([c.index as byte]);
      Put(alts[c.index], c.chosen);
    }

    method PutOptional(e: Schema, c: Layout)
      requires Typed(Optional(e), c) && cursor <= |pkt|
      modifies `pkt, `cursor
      ensures Wrote(old(pkt), old(cursor), Encode(Optional(e), c))
      decreases e, 2
    {
      if c.LNothing? {
        Write([0]);
      } else {
        OverwriteTwice(pkt, cursor, [1], Encode(e, c.value));
        Write([1]);
        Put(e, c.value);
      }
    }

    /** Writes one more part behind what has been written over `before`. */
    method PutNext(e: Schema, c: Layout, ghost before: seq<byte>, ghost at: nat, ghost data: seq<byte>)
      requires Typed(e, c) && at <= |before| && Wrote(before, at, data)
      modifies `pkt, `cursor
      ensures Wrote(before, at, data + Encode(e, c))
      decreases e, 2, 0
    {
      ghost var mid := pkt;
      Put(e, c);
      WroteBoth(before, at, data, Encode(e, c), mid, pkt);
    }

    method PutCounted(e: Schema, cs: seq<Layout>)
      requires (forall i | 0 <= i < |cs| :: Typed(e, cs[i])) && cursor <= |pkt|
      modifies `pkt, `cursor
      ensures Wrote(old(pkt), old(cursor), Counted(EncodeEach(e, cs)))
      decreases e, 2
    {
      ghost var parts, at := EncodeEach(e, cs), cursor;
      Write(LittleEndian(|cs|, 8));
      FirstParts(parts);
      for i := 0 to |cs|
        invariant Wrote(old(pkt), at, CountedPrefix(parts, i))
      {
        NextPart(parts, i);
        PutNext(e, cs[i], old(pkt), at, CountedPrefix(parts, i));
      }
    }

    method PutEntry(s: Schema, k: Layout, v: Layout)
      requires s.UnorderedMap? && Typed(s.key, k) && Typed(s.val, v) && cursor <= |pkt|
      modifies `pkt, `cursor
      ensures Wrote(old(pkt), old(cursor), Encode(s.key, k) + Encode(s.val, v))
      decreases s, 0, 0
    {
      OverwriteTwice(pkt, cursor, Encode(s.key, k), Encode(s.val, v));
      Put(s.key, k);
      Put(s.val, v);
    }

    method PutEntries(s: Schema, es: seq<(Layout, Layout)>)
      requires s.UnorderedMap? && cursor <= |pkt|
      requires forall i | 0 <= i < |es| :: Typed(s.key, es[i].0) && Typed(s.val, es[i].1)
      modifies `pkt, `cursor
      ensures Wrote(old(pkt), old(cursor), Counted(EncodeEntries(s, es)))
      decreases s, 0, 1
    {
      ghost var parts, at := EncodeEntries(s, es), cursor;
      Write(LittleEndian(|es|, 8));
      FirstParts(parts);
      for i := 0 to |es|
        invariant Wrote(old(pkt), at, CountedPrefix(parts, i))
      {
        NextPart(parts, i);
        ghost var mid := pkt;
        PutEntry(s, es[i].0, es[i].1);
        WroteBoth(old(pkt), at, CountedPrefix(parts, i), parts[i], mid, pkt);
      }
    }
  }

  /** The bytes of a value, in a buffer that may have been given its size beforehand. */
  method MakeBuffer(s: Schema, c: Layout, presize: nat) returns (buf: seq<byte>)
    requires Typed(s, c) && presize <= |Encode(s, c)|
    ensures buf == Encode(s, c)
  {
    var ser := new BufferSerializer(seq(presize, _ => 0), 1);
    ser.Put(s, c);
    buf := ser.pkt;
  }

  /** A value from the front of a buffer; bytes left over are not looked at. */
  method FromBuffer(s: Schema, buf: seq<byte>, chunk: nat) returns (r: Option<Value>)
    requires Readable(s) && chunk > 0
    ensures r == match Decode(s, buf) { case None => None case Some(p) => Some(p.0) }
  {
    var deser := new BufferSerializer(buf, chunk);
    assert buf[0..] == buf;
    var v := deser.Get(s);
    r := if deser.valid then Some(v) else None;
  }

  lemma MembersSnoc(vec: seq<Value>, v: Value)
    ensures Members(vec + [v]) == Members(vec) + {v}
  {
  }
}

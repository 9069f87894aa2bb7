/** The binary format. Types are described by a schema, so that one statement covers every message and
    every stored structure built from integers, arrays, optionals, pairs, vectors, sets, maps and variants. */
module Serialization {
  import opened Common
  import opened Codec

  datatype Schema =
    | Empty
    | Int(size: nat)
    | Array(length: nat)
    | Optional(elem: Schema)
    | Pair(first: Schema, second: Schema)
    | Vector(elem: Schema)
    | OrderedSet(elem: Schema)
    | UnorderedSet(elem: Schema)
    | UnorderedMap(key: Schema, val: Schema)
    | Variant(alternatives: seq<Schema>)

  /** What a decoder produces: sets and maps have no order. */
  datatype Value =
    | Unit
    | Number(n: nat)
    | Bytes(bytes: seq<byte>)
    | Nothing
    | Just(value: Value)
    | Two(a: Value, b: Value)
    | List(elems: seq<Value>)
    | Bag(members: set<Value>)
    | Table(entries: map<Value, Value>)
    | Choice(index: nat, chosen: Value)

  /** What an encoder walks over: the same data, with sets and maps in some iteration order. */
  datatype Layout =
    | LUnit
    | LNumber(n: nat)
    | LBytes(bytes: seq<byte>)
    | LNothing
    | LJust(value: Layout)
    | LTwo(a: Layout, b: Layout)
    | LList(elems: seq<Layout>)
    | LSet(order: seq<Layout>)
    | LMap(entries: seq<(Layout, Layout)>)
    | LChoice(index: nat, chosen: Layout)

  /** The data of a layout, without the order. */
  function Abs(c: Layout): Value {
    match c
    case LUnit => Unit
    case LNumber(n) => Number(n)
    case LBytes(b) => Bytes(b)
    case LNothing => Nothing
    case LJust(v) => Just(Abs(v))
    case LTwo(a, b) => Two(Abs(a), Abs(b))
    case LList(es) => List(AbsAll(es))
    case LSet(es) => Bag(Members(AbsAll(es)))
    case LMap(es) => Table(Fill(map[], AbsEntries(es)))
    case LChoice(i, v) => Choice(i, Abs(v))
  }

  function AbsAll(cs: seq<Layout>): (vs: seq<Value>)
    ensures |vs| == |cs| && forall i | 0 <= i < |cs| :: vs[i] == Abs(cs[i])
  {
    seq(|cs|, i requires 0 <= i < |cs| => Abs(cs[i]))
  }

  function AbsEntry(e: (Layout, Layout)): (Value, Value) { (Abs(e.0), Abs(e.1)) }

  function AbsEntries(es: seq<(Layout, Layout)>): (vs: seq<(Value, Value)>)
    ensures |vs| == |es| && forall i | 0 <= i < |es| :: vs[i] == AbsEntry(es[i])
  {
    seq(|es|, i requires 0 <= i < |es| => AbsEntry(es[i]))
  }

  // ---------------------------------------------------------------- integers

  function Pow256(k: nat): nat {
    if k == 0 then 1 else 256 * Pow256(k - 1)
  }

  /** Little-endian bytes. */
  function LittleEndian(n: nat, size: nat): (b: seq<byte>)
    ensures |b| == size
  {
    if size == 0 then [] else [(n % 256) as byte] + LittleEndian(n / 256, size - 1)
  }

  function FromLittleEndian(b: seq<byte>): nat {
    if b == [] then 0 else b[0] as nat + 256 * FromLittleEndian(b[1..])
  }

  /** The last byte counts most. */
  lemma {:induction false} HighByteLast(b: seq<byte>, x: byte)
    ensures FromLittleEndian(b + [x]) == FromLittleEndian(b) + x as nat * Pow256(|b|)
  {
    if b == [] {
      assert [x][1..] == [];
    } else {
      HighByteLast(b[1..], x);
      assert (b + [x])[1..] == b[1..] + [x];
      Scaled(x as nat, Pow256(|b| - 1));
    }
  }

  lemma Scaled(x: nat, p: nat)
    ensures 256 * (x * p) == x * (256 * p)
  {
  }

  lemma {:induction false} LittleEndianRoundTrip(n: nat, size: nat)
    requires n < Pow256(size)
    ensures FromLittleEndian(LittleEndian(n, size)) == n
  {
    if size > 0 {
      LittleEndianRoundTrip(n / 256, size - 1);
      assert LittleEndian(n, size)[1..] == LittleEndian(n / 256, size - 1);
    }
  }

  // ---------------------------------------------------------------- encoding

  /** The fewest bytes an encoding of this schema has. */
  function Width(s: Schema): nat {
    match s
    case Empty => 0
    case Int(k) => k
    case Array(n) => n
    case Optional(_) => 1
    case Pair(a, b) => Width(a) + Width(b)
    case Variant(_) => 1
    case _ => 8
  }

  /** Members of unordered containers take at least one byte; otherwise reading a set would not end. */
  predicate Readable(s: Schema) {
    match s
    case Optional(e) => Readable(e)
    case Pair(a, b) => Readable(a) && Readable(b)
    case Vector(e) => Readable(e)
    case OrderedSet(e) => Readable(e)
    case UnorderedSet(e) => Readable(e) && Width(e) > 0
    case UnorderedMap(k, v) => Readable(k) && Readable(v) && Width(k) + Width(v) > 0
    case Variant(alts) => |alts| < 256 && forall i | 0 <= i < |alts| :: Readable(alts[i])
    case _ => true
  }

  /** `c` is a layout of type `s`; sets and maps have no repeated member or key. */
  predicate Typed(s: Schema, c: Layout) {
    match s
    case Empty => c.LUnit?
    case Int(k) => c.LNumber? && c.n < Pow256(k)
    case Array(n) => c.LBytes? && |c.bytes| == n
    case Optional(e) => c.LNothing? || (c.LJust? && Typed(e, c.value))
    case Pair(s1, s2) => c.LTwo? && Typed(s1, c.a) && Typed(s2, c.b)
    case Vector(e) =>
      c.LList? && |c.elems| < U64_RANGE && (forall i | 0 <= i < |c.elems| :: Typed(e, c.elems[i]))
    case OrderedSet(e) =>
      c.LSet? && |c.order| < U64_RANGE && Distinct(AbsAll(c.order)) &&
      (forall i | 0 <= i < |c.order| :: Typed(e, c.order[i]))
    case UnorderedSet(e) =>
      c.LSet? && |c.order| < U64_RANGE && Distinct(AbsAll(c.order)) &&
      (forall i | 0 <= i < |c.order| :: Typed(e, c.order[i]))
    case UnorderedMap(k, v) =>
      c.LMap? && |c.entries| < U64_RANGE && Distinct(Keys(AbsEntries(c.entries))) &&
      (forall i | 0 <= i < |c.entries| :: Typed(k, c.entries[i].0) && Typed(v, c.entries[i].1))
    case Variant(alts) => c.LChoice? && c.index < |alts| < 256 && Typed(alts[c.index], c.chosen)
  }

  function Encode(s: Schema, c: Layout): seq<byte>
    requires Typed(s, c)
    decreases s, 0
  {
    match s
    case Empty => []
    case Int(k) => LittleEndian(c.n, k)
    case Array(_) => c.bytes
    case Optional(e) => if c.LNothing? then [0] else [1] + Encode(e, c.value)
    case Pair(s1, s2) => Encode(s1, c.a) + Encode(s2, c.b)
    case Vector(e) => Counted(EncodeEach(e, c.elems))
    case OrderedSet(e) => Counted(EncodeEach(e, c.order))
    case UnorderedSet(e) => Counted(EncodeEach(e, c.order))
    case UnorderedMap(k, v) => Counted(EncodeEntries(s, c.entries))
    case Variant(alts) => [c.index as byte] + Encode(alts[c.index], c.chosen)
  }

  /** A count and then the parts. */
  function Counted(parts: seq<seq<byte>>): seq<byte> {
    LittleEndian(|parts|, 8) + Concat(parts)
  }

  function EncodeEach(e: Schema, cs: seq<Layout>): (parts: seq<seq<byte>>)
    requires forall i | 0 <= i < |cs| :: Typed(e, cs[i])
    ensures |parts| == |cs| && forall i | 0 <= i < |cs| :: parts[i] == Encode(e, cs[i])
    decreases e, 1
  {
    seq(|cs|, i requires 0 <= i < |cs| => Encode(e, cs[i]))
  }

  function EncodeEntries(s: Schema, es: seq<(Layout, Layout)>): (parts: seq<seq<byte>>)
    requires s.UnorderedMap?
    requires forall i | 0 <= i < |es| :: Typed(s.key, es[i].0) && Typed(s.val, es[i].1)
    ensures |parts| == |es|
    ensures forall i | 0 <= i < |es| :: parts[i] == Encode(s.key, es[i].0) + Encode(s.val, es[i].1)
    decreases s, 0, 0
  {
    seq(|es|, i requires 0 <= i < |es| => Encode(s.key, es[i].0) + Encode(s.val, es[i].1))
  }

  /** Absent is 0 and present is 1; an alternative comes after its number; a list comes after its length. */
  lemma OptionalBytes()
    ensures var c := LTwo(LNothing, LJust(LNumber(7)));
            && Typed(Pair(Optional(Int(1)), Optional(Int(1))), c)
            && Encode(Pair(Optional(Int(1)), Optional(Int(1))), c) == [0, 1, 7]
  {
    assert Pow256(1) == 256 && LittleEndian(7, 1) == [7];
  }

  lemma VariantBytes()
    ensures var c := LChoice(1, LNumber(7));
            Typed(Variant([Empty, Int(1)]), c) && Encode(Variant([Empty, Int(1)]), c) == [1, 7]
  {
    assert Pow256(1) == 256 && LittleEndian(7, 1) == [7];
  }

  lemma VectorBytes()
    ensures var c := LList([LNumber(7), LNumber(9)]);
            Typed(Vector(Int(1)), c) && Encode(Vector(Int(1)), c) == [2, 0, 0, 0, 0, 0, 0, 0, 7, 9]
  {
    var c := LList([LNumber(7), LNumber(9)]);
    assert Pow256(1) == 256 && LittleEndian(7, 1) == [7] && LittleEndian(9, 1) == [9];
    assert forall i | 0 <= i < 2 :: Typed(Int(1), c.elems[i]);
    assert EncodeEach(Int(1), c.elems) == [[7], [9]];
    assert [[7], [9]][1..] == [[9]] && [[9]][1..] == [];
    assert Concat([[7], [9]]) == [7] + Concat([[9]]) && Concat([[9]]) == [9] + Concat([]);
    CountBytes();
  }

  lemma CountBytes()
    ensures LittleEndian(2, 8) == [2, 0, 0, 0, 0, 0, 0, 0]
  {
  }

  // ---------------------------------------------------------------- decoding

  ghost function Decode(s: Schema, b: seq<byte>): (r: Parsed<Value>)
    requires Readable(s)
    ensures r.Some? ==> |r.value.1| + Width(s) <= |b|
    decreases s, 1
  {
    match s
    case Empty => Some((Unit, b))
    case Int(k) => if |b| < k then None else Some((Number(FromLittleEndian(b[..k])), b[k..]))
    case Array(n) => if |b| < n then None else Some((Bytes(b[..n]), b[n..]))
    case Optional(e) =>
      if |b| < 1 then None
      else if b[0] == 0 then Some((Nothing, b[1..]))
      else MapFirst(Decode(e, b[1..]), v => Just(v))
    case Pair(s1, s2) =>
      PairTakes(Decoder(s1), Width(s1), Decoder(s2), Width(s2));
      MapFirst(ReadPair(Decoder(s1), Decoder(s2))(b), (p: (Value, Value)) => Two(p.0, p.1))
    case Vector(e) =>
      if |b| < 8 then None
      else MapFirst(ReadList(Decoder(e), FromLittleEndian(b[..8]), [], b[8..]), vs => List(vs))
    case OrderedSet(e) =>
      if |b| < 8 then None
      else MapFirst(ReadList(Decoder(e), FromLittleEndian(b[..8]), [], b[8..]), vs => Bag(Members(vs)))
    case UnorderedSet(e) =>
      if |b| < 8 then None
      else MapFirst(ReadSet(Decoder(e), FromLittleEndian(b[..8]), {}, b[8..]), vs => Bag(vs))
    case UnorderedMap(k, v) =>
      if |b| < 8 then None
      else MapFirst(ReadMap(EntryReader(s), FromLittleEndian(b[..8]), map[], b[8..]), m => Table(m))
    case Variant(alts) =>
      if |b| < 1 || b[0] as nat >= |alts| then None
      else MapFirst(Decode(alts[b[0] as nat], b[1..]), v => Choice(b[0] as nat, v))
  }

  ghost function EntryReader(s: Schema): (read: Reader<(Value, Value)>)
    requires Readable(s) && s.UnorderedMap?
    ensures Takes(read, 1)
    decreases s, 0
  {
    PairTakes(Decoder(s.key), Width(s.key), Decoder(s.val), Width(s.val));
    ReadPair(Decoder(s.key), Decoder(s.val))
  }

  ghost function Decoder(s: Schema): (read: Reader<Value>)
    requires Readable(s)
    ensures forall b :: read(b) == Decode(s, b)
    ensures Takes(read, Width(s)) && Takes(read, 0) && (Width(s) > 0 ==> Takes(read, 1))
    decreases s, 2
  {
    b => Decode(s, b)
  }

  // ---------------------------------------------------------------- decoding undoes encoding

  lemma EightBytes()
    ensures Pow256(8) == U64_RANGE
  {
    assert Pow256(2) == 65536 && Pow256(4) == 0x1_0000_0000;
    assert Pow256(6) == 0x1_0000_0000_0000;
  }

  lemma LengthPrefix(n: nat, body: seq<byte>)
    requires n < U64_RANGE
    ensures var b := LittleEndian(n, 8) + body; FromLittleEndian(b[..8]) == n && b[8..] == body
  {
    EightBytes();
    LittleEndianRoundTrip(n, 8);
    assert (LittleEndian(n, 8) + body)[..8] == LittleEndian(n, 8);
  }

  lemma CountedSplit(parts: seq<seq<byte>>, rest: seq<byte>)
    requires |parts| < U64_RANGE
    ensures var b := Counted(parts) + rest;
            |b| >= 8 && FromLittleEndian(b[..8]) == |parts| && b[8..] == Concat(parts) + rest
  {
    LengthPrefix(|parts|, Concat(parts) + rest);
    assert Counted(parts) + rest == LittleEndian(|parts|, 8) + (Concat(parts) + rest);
  }

  lemma ScalarRoundTrip(s: Schema, c: Layout)
    requires Typed(s, c) && (s.Empty? || s.Int? || s.Array?)
    ensures Reads(Decoder(s), Encode(s, c), Abs(c))
  {
    forall rest ensures Decode(s, Encode(s, c) + rest) == Some((Abs(c), rest)) {
      var b := Encode(s, c) + rest;
      match s
      case Empty => assert b == rest;
      case Int(k) =>
        LittleEndianRoundTrip(c.n, k);
        assert b[..k] == Encode(s, c);
      case Array(n) =>
        assert b[..n] == c.bytes;
    }
  }

  lemma OptionalRoundTrip(s: Schema, c: Layout)
    requires Readable(s) && Typed(s, c) && s.Optional?
    requires c.LJust? ==> Reads(Decoder(s.elem), Encode(s.elem, c.value), Abs(c.value))
    ensures Reads(Decoder(s), Encode(s, c), Abs(c))
  {
    forall rest ensures Decode(s, Encode(s, c) + rest) == Some((Abs(c), rest)) {
      var b := Encode(s, c) + rest;
      if c.LJust? {
        assert b[1..] == Encode(s.elem, c.value) + rest;
        assert Decoder(s.elem)(b[1..]) == Some((Abs(c.value), rest));
      } else {
        assert b[1..] == rest;
      }
    }
  }

  lemma PairRoundTrip(s: Schema, c: Layout)
    requires Readable(s) && Typed(s, c) && s.Pair?
    requires Reads(Decoder(s.first), Encode(s.first, c.a), Abs(c.a))
    requires Reads(Decoder(s.second), Encode(s.second, c.b), Abs(c.b))
    ensures Reads(Decoder(s), Encode(s, c), Abs(c))
  {
    ReadsPair(Decoder(s.first), Decoder(s.second),
              Encode(s.first, c.a), Abs(c.a), Encode(s.second, c.b), Abs(c.b));
  }

  lemma Chosen(alts: seq<Schema>, i: nat, tail: seq<byte>, v: Value, rest: seq<byte>)
    requires Readable(Variant(alts)) && i < |alts| && Decoder(alts[i])(tail) == Some((v, rest))
    ensures Decode(Variant(alts), [i as byte] + tail) == Some((Choice(i, v), rest))
  {
    var b := [i as byte] + tail;
    assert b[0] as nat == i && b[1..] == tail;
    assert Decode(alts[i], tail) == Some((v, rest));
  }

  lemma ReadsAt<T(!new)>(read: Reader<T>, part: seq<byte>, v: T, rest: seq<byte>, b: byte)
    requires Reads(read, part, v)
    ensures read(part + rest) == Some((v, rest)) && [b] + part + rest == [b] + (part + rest)
  {
    assert [b] + part + rest == [b] + (part + rest);
  }

  lemma VariantRoundTrip(alts: seq<Schema>, i: nat, part: seq<byte>, v: Value)
    requires Readable(Variant(alts)) && i < |alts|
    requires Reads(Decoder(alts[i]), part, v)
    ensures Reads(Decoder(Variant(alts)), [i as byte] + part, Choice(i, v))
  {
    forall rest ensures Decoder(Variant(alts))([i as byte] + part + rest) == Some((Choice(i, v), rest)) {
      ReadsAt(Decoder(alts[i]), part, v, rest, i as byte);
      Chosen(alts, i, part + rest, v, rest);
    }
  }

  lemma ListRoundTrip(s: Schema, c: Layout)
    requires Readable(s) && Typed(s, c) && s.Vector?
    requires forall i | 0 <= i < |c.elems| :: Reads(Decoder(s.elem), Encode(s.elem, c.elems[i]), Abs(c.elems[i]))
    ensures Reads(Decoder(s), Encode(s, c), Abs(c))
  {
    forall rest ensures Decode(s, Encode(s, c) + rest) == Some((Abs(c), rest)) {
      CountedSplit(EncodeEach(s.elem, c.elems), rest);
      ReadsList(Decoder(s.elem), |c.elems|, [], EncodeEach(s.elem, c.elems), AbsAll(c.elems), rest);
      assert [] + AbsAll(c.elems) == AbsAll(c.elems);
    }
  }

  /** A count and parts that read as `vs`. */
  ghost predicate ReadsAs(read: Reader<Value>, parts: seq<seq<byte>>, vs: seq<Value>) {
    |parts| == |vs| < U64_RANGE && forall i | 0 <= i < |vs| :: Reads(read, parts[i], vs[i])
  }

  lemma OrderedMembers(e: Schema, parts: seq<seq<byte>>, vs: seq<Value>, rest: seq<byte>)
    requires Readable(e) && ReadsAs(Decoder(e), parts, vs)
    ensures Decode(OrderedSet(e), Counted(parts) + rest) == Some((Bag(Members(vs)), rest))
  {
    CountedSplit(parts, rest);
    ListBody(Decoder(e), parts, vs, rest);
    OrderedBody(e, Counted(parts) + rest, vs, rest);
  }

  lemma ListBody(read: Reader<Value>, parts: seq<seq<byte>>, vs: seq<Value>, rest: seq<byte>)
    requires Takes(read, 0) && ReadsAs(read, parts, vs)
    ensures ReadList(read, |vs|, [], Concat(parts) + rest) == Some((vs, rest))
  {
    ReadsList(read, |vs|, [], parts, vs, rest);
    assert [] + vs == vs;
  }

  lemma OrderedBody(e: Schema, b: seq<byte>, vs: seq<Value>, rest: seq<byte>)
    requires Readable(e) && |b| >= 8 && ReadList(Decoder(e), FromLittleEndian(b[..8]), [], b[8..]) == Some((vs, rest))
    ensures Decode(OrderedSet(e), b) == Some((Bag(Members(vs)), rest))
  {
  }

  lemma UnorderedMembers(e: Schema, parts: seq<seq<byte>>, vs: seq<Value>, rest: seq<byte>)
    requires Readable(UnorderedSet(e)) && ReadsAs(Decoder(e), parts, vs) && Distinct(vs)
    ensures Decode(UnorderedSet(e), Counted(parts) + rest) == Some((Bag(Members(vs)), rest))
  {
    CountedSplit(parts, rest);
    ReadsSet(Decoder(e), |vs|, {}, parts, vs, rest);
    assert {} + Members(vs) == Members(vs);
  }

  lemma OrderedSetRoundTrip(e: Schema, es: seq<Layout>)
    requires Readable(OrderedSet(e)) && Typed(OrderedSet(e), LSet(es))
    requires forall i | 0 <= i < |es| :: Reads(Decoder(e), Encode(e, es[i]), Abs(es[i]))
    ensures Reads(Decoder(OrderedSet(e)), Encode(OrderedSet(e), LSet(es)), Abs(LSet(es)))
  {
    var parts, vs := EncodeEach(e, es), AbsAll(es);
    forall rest ensures Decoder(OrderedSet(e))(Counted(parts) + rest) == Some((Bag(Members(vs)), rest)) {
      OrderedMembers(e, parts, vs, rest);
    }
  }

  lemma UnorderedSetRoundTrip(e: Schema, es: seq<Layout>)
    requires Readable(UnorderedSet(e)) && Typed(UnorderedSet(e), LSet(es))
    requires forall i | 0 <= i < |es| :: Reads(Decoder(e), Encode(e, es[i]), Abs(es[i]))
    ensures Reads(Decoder(UnorderedSet(e)), Encode(UnorderedSet(e), LSet(es)), Abs(LSet(es)))
  {
    var parts, vs := EncodeEach(e, es), AbsAll(es);
    forall rest ensures Decoder(UnorderedSet(e))(Counted(parts) + rest) == Some((Bag(Members(vs)), rest)) {
      UnorderedMembers(e, parts, vs, rest);
    }
  }

  lemma MapRoundTrip(s: Schema, c: Layout)
    requires Readable(s) && Typed(s, c) && s.UnorderedMap?
    requires forall i | 0 <= i < |c.entries| ::
      && Reads(Decoder(s.key), Encode(s.key, c.entries[i].0), Abs(c.entries[i].0))
      && Reads(Decoder(s.val), Encode(s.val, c.entries[i].1), Abs(c.entries[i].1))
    ensures Reads(Decoder(s), Encode(s, c), Abs(c))
  {
    var read := EntryReader(s);
    var parts := EncodeEntries(s, c.entries);
    var es := AbsEntries(c.entries);
    forall i | 0 <= i < |es| ensures Reads(read, parts[i], es[i]) {
      ReadsPair(Decoder(s.key), Decoder(s.val),
                Encode(s.key, c.entries[i].0), Abs(c.entries[i].0),
                Encode(s.val, c.entries[i].1), Abs(c.entries[i].1));
    }
    forall rest ensures Decode(s, Encode(s, c) + rest) == Some((Abs(c), rest)) {
      CountedSplit(parts, rest);
      ReadsMap(read, |es|, map[], parts, es, rest);
    }
  }

  /** Whatever the iteration order of its sets and maps, an encoded value decodes to that value and uses
      up exactly its own bytes. */
  lemma {:induction false} RoundTrip(s: Schema, c: Layout)
    requires Readable(s) && Typed(s, c)
    ensures Reads(Decoder(s), Encode(s, c), Abs(c))
  {
    match s
    case Empty => ScalarRoundTrip(s, c);
    case Int(_) => ScalarRoundTrip(s, c);
    case Array(_) => ScalarRoundTrip(s, c);
    case Optional(e) =>
      if c.LJust? { RoundTrip(e, c.value); }
      OptionalRoundTrip(s, c);
    case Pair(s1, s2) =>
      RoundTrip(s1, c.a);
      RoundTrip(s2, c.b);
      PairRoundTrip(s, c);
    case Vector(e) =>
      forall i | 0 <= i < |c.elems| { RoundTrip(e, c.elems[i]); }
      ListRoundTrip(s, c);
    case OrderedSet(e) =>
      forall i | 0 <= i < |c.order| { RoundTrip(e, c.order[i]); }
      OrderedSetRoundTrip(e, c.order);
    case UnorderedSet(e) =>
      forall i | 0 <= i < |c.order| { RoundTrip(e, c.order[i]); }
      UnorderedSetRoundTrip(e, c.order);
    case UnorderedMap(k, v) =>
      forall i | 0 <= i < |c.entries| { RoundTrip(k, c.entries[i].0); }
      forall i | 0 <= i < |c.entries| { RoundTrip(v, c.entries[i].1); }
      MapRoundTrip(s, c);
    case Variant(alts) =>
      RoundTrip(alts[c.index], c.chosen);
      VariantRoundTrip(alts, c.index, Encode(alts[c.index], c.chosen), Abs(c.chosen));
  }

  /** Encodings are self-delimiting: a byte string splits into an encoding and a remainder in one way. */
  lemma Unambiguous(s: Schema, c: Layout, d: Layout, rest: seq<byte>, rest': seq<byte>)
    requires Readable(s) && Typed(s, c) && Typed(s, d)
    requires Encode(s, c) + rest == Encode(s, d) + rest'
    ensures Abs(c) == Abs(d) && rest == rest'
  {
    RoundTrip(s, c);
    RoundTrip(s, d);
    assert Decoder(s)(Encode(s, c) + rest) == Some((Abs(c), rest));
    assert Decoder(s)(Encode(s, d) + rest') == Some((Abs(d), rest'));
  }
}

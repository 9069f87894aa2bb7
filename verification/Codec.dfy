/** Reading counted containers, whatever their members are. */
module Codec {
  import opened Common

  /** A value and the bytes that follow it. */
  type Parsed<T> = Option<(T, seq<byte>)>

  type Reader<!T> = seq<byte> -> Parsed<T>

  /** A successful read takes at least `width` bytes. */
  ghost predicate Takes<T(!new)>(read: Reader<T>, width: nat) {
    forall b | read(b).Some? :: |read(b).value.1| + width <= |b|
  }

  /** `part` reads as `value`, whatever follows it. */
  ghost predicate Reads<T(!new)>(read: Reader<T>, part: seq<byte>, value: T) {
    forall rest :: read(part + rest) == Some((value, rest))
  }

  function MapFirst<T, U>(r: Parsed<T>, f: T -> U): Parsed<U> {
    if r.None? then None else Some((f(r.value.0), r.value.1))
  }

  /** One value and then another. */
  ghost function ReadPair<A(!new), B(!new)>(readA: Reader<A>, readB: Reader<B>): Reader<(A, B)> {
    b =>
      var ra := readA(b);
      if ra.None? then None
      else
        var rb := readB(ra.value.1);
        if rb.None? then None else Some(((ra.value.0, rb.value.0), rb.value.1))
  }

  lemma PairTakes<A(!new), B(!new)>(readA: Reader<A>, m: nat, readB: Reader<B>, n: nat)
    requires Takes(readA, m) && Takes(readB, n)
    ensures Takes(ReadPair(readA, readB), m + n)
  {
  }

  lemma ReadsPair<A(!new), B(!new)>(readA: Reader<A>, readB: Reader<B>, p: seq<byte>, a: A, q: seq<byte>, b: B)
    requires Reads(readA, p, a) && Reads(readB, q, b)
    ensures Reads(ReadPair(readA, readB), p + q, (a, b))
  {
    forall rest ensures ReadPair(readA, readB)(p + q + rest) == Some(((a, b), rest)) {
      assert p + q + rest == p + (q + rest);
    }
  }

  function Concat(parts: seq<seq<byte>>): seq<byte> {
    if parts == [] then [] else parts[0] + Concat(parts[1..])
  }

  lemma {:induction false} ConcatSnoc(parts: seq<seq<byte>>, p: seq<byte>)
    ensures Concat(parts + [p]) == Concat(parts) + p
  {
    if parts == [] {
      assert [p][1..] == [];
    } else {
      ConcatSnoc(parts[1..], p);
      assert (parts + [p])[1..] == parts[1..] + [p];
    }
  }

  /** Reads elements until the list has `n` of them. */
  ghost function ReadList<T(!new)>(read: Reader<T>, n: nat, acc: seq<T>, b: seq<byte>): (r: Parsed<seq<T>>)
    requires Takes(read, 0)
    ensures r.Some? ==> |r.value.1| <= |b|
    decreases n - |acc|
  {
    if |acc| >= n then Some((acc, b))
    else
      var r := read(b);
      if r.None? then None else ReadList(read, n, acc + [r.value.0], r.value.1)
  }

  /** Reads members until the set has `n` of them. */
  ghost function ReadSet<T(!new)>(read: Reader<T>, n: nat, acc: set<T>, b: seq<byte>): (r: Parsed<set<T>>)
    requires Takes(read, 1)
    ensures r.Some? ==> |r.value.1| <= |b|
    decreases |b|
  {
    if |acc| >= n then Some((acc, b))
    else
      var r := read(b);
      if r.None? then None else ReadSet(read, n, acc + {r.value.0}, r.value.1)
  }

  /** Inserting into a map keeps an entry that is already there. */
  function Put<K, V>(m: map<K, V>, k: K, v: V): map<K, V> {
    if k in m then m else m[k := v]
  }

  ghost function ReadMap<K(!new), V(!new)>(read: Reader<(K, V)>, n: nat, acc: map<K, V>, b: seq<byte>)
    : (r: Parsed<map<K, V>>)
    requires Takes(read, 1)
    ensures r.Some? ==> |r.value.1| <= |b|
    decreases |b|
  {
    if |acc| >= n then Some((acc, b))
    else
      var r := read(b);
      if r.None? then None else ReadMap(read, n, Put(acc, r.value.0.0, r.value.0.1), r.value.1)
  }

  function Members<T>(vs: seq<T>): set<T> { set v | v in vs }

  function Fill<K, V>(m: map<K, V>, es: seq<(K, V)>): map<K, V>
    decreases |es|
  {
    if es == [] then m else Fill(Put(m, es[0].0, es[0].1), es[1..])
  }

  function Keys<K, V>(es: seq<(K, V)>): (ks: seq<K>)
    ensures |ks| == |es| && forall i | 0 <= i < |es| :: ks[i] == es[i].0
  {
    seq(|es|, i requires 0 <= i < |es| => es[i].0)
  }

  // ---------------------------------------------------------------- what was written is read back

  lemma {:induction false} ReadsList<T(!new)>(
    read: Reader<T>, n: nat, acc: seq<T>, parts: seq<seq<byte>>, vs: seq<T>, rest: seq<byte>)
    requires Takes(read, 0) && |parts| == |vs| && n == |acc| + |vs|
    requires forall i | 0 <= i < |vs| :: Reads(read, parts[i], vs[i])
    ensures ReadList(read, n, acc, Concat(parts) + rest) == Some((acc + vs, rest))
    decreases |vs|
  {
    if vs == [] {
      assert Concat(parts) + rest == rest;
      assert acc + vs == acc;
    } else {
      var more := Concat(parts[1..]) + rest;
      assert Concat(parts) + rest == parts[0] + more;
      assert Reads(read, parts[0], vs[0]);
      ReadsList(read, n, acc + [vs[0]], parts[1..], vs[1..], rest);
      assert acc + [vs[0]] + vs[1..] == acc + vs;
    }
  }

  lemma DistinctTail<T>(vs: seq<T>)
    requires vs != [] && Distinct(vs)
    ensures Distinct(vs[1..]) && vs[0] !in Members(vs[1..])
    ensures Members(vs) == {vs[0]} + Members(vs[1..])
  {
    assert vs == [vs[0]] + vs[1..];
  }

  lemma OneMember<T>(acc: set<T>, vs: seq<T>)
    requires vs != [] && Distinct(vs) && acc !! Members(vs)
    ensures Distinct(vs[1..]) && acc + {vs[0]} !! Members(vs[1..]) && |acc + {vs[0]}| == |acc| + 1
    ensures acc + {vs[0]} + Members(vs[1..]) == acc + Members(vs)
  {
    DistinctTail(vs);
  }

  /** Distinct members fill a set in any order. */
  lemma {:induction false} ReadsSet<T(!new)>(
    read: Reader<T>, n: nat, acc: set<T>, parts: seq<seq<byte>>, vs: seq<T>, rest: seq<byte>)
    requires Takes(read, 1) && |parts| == |vs|
    requires forall i | 0 <= i < |vs| :: Reads(read, parts[i], vs[i])
    requires Distinct(vs) && acc !! Members(vs) && n == |acc| + |vs|
    ensures ReadSet(read, n, acc, Concat(parts) + rest) == Some((acc + Members(vs), rest))
    decreases |vs|
  {
    if vs == [] {
      assert Concat(parts) + rest == rest;
      assert acc + Members(vs) == acc;
    } else {
      var more := Concat(parts[1..]) + rest;
      assert Concat(parts) + rest == parts[0] + more;
      assert Reads(read, parts[0], vs[0]);
      OneMember(acc, vs);
      ReadsSet(read, n, acc + {vs[0]}, parts[1..], vs[1..], rest);
    }
  }

  lemma KeysTail<K, V>(es: seq<(K, V)>)
    requires es != []
    ensures Keys(es)[1..] == Keys(es[1..])
  {
  }

  /** Entries with distinct keys fill a map in any order. */
  lemma {:induction false} ReadsMap<K(!new), V(!new)>(
    read: Reader<(K, V)>, n: nat, acc: map<K, V>, parts: seq<seq<byte>>, es: seq<(K, V)>, rest: seq<byte>)
    requires Takes(read, 1) && |parts| == |es|
    requires forall i | 0 <= i < |es| :: Reads(read, parts[i], es[i])
    requires Distinct(Keys(es)) && acc.Keys !! Members(Keys(es)) && n == |acc| + |es|
    ensures ReadMap(read, n, acc, Concat(parts) + rest) == Some((Fill(acc, es), rest))
    decreases |es|
  {
    if es == [] {
      assert Concat(parts) + rest == rest;
    } else {
      var more := Concat(parts[1..]) + rest;
      assert Concat(parts) + rest == parts[0] + more;
      assert Reads(read, parts[0], es[0]);
      DistinctTail(Keys(es));
      KeysTail(es);
      ReadsMap(read, n, Put(acc, es[0].0, es[0].1), parts[1..], es[1..], rest);
    }
  }

  /** Once filled from distinct keys, a map holds exactly the given entries. */
  lemma {:induction false} FillHolds<K, V>(m: map<K, V>, es: seq<(K, V)>)
    requires Distinct(Keys(es)) && m.Keys !! Members(Keys(es))
    ensures Fill(m, es).Keys == m.Keys + Members(Keys(es))
    ensures forall i | 0 <= i < |es| :: Fill(m, es)[es[i].0] == es[i].1
    ensures forall k | k in m :: Fill(m, es)[k] == m[k]
    decreases |es|
  {
    if es != [] {
      DistinctTail(Keys(es));
      KeysTail(es);
      var m1 := Put(m, es[0].0, es[0].1);
      FillHolds(m1, es[1..]);
      forall i | 0 <= i < |es| ensures Fill(m, es)[es[i].0] == es[i].1 {
        if i > 0 { assert es[1..][i - 1] == es[i]; }
      }
    }
  }
}

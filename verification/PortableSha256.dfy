/**
 * The portable compression function: sixty-four rounds that never move a working variable and never
 * keep more than sixteen words of the schedule.
 *
 * Round t changes two of the eight variables and renames all of them: what the standard calls its j-th
 * working variable sits j places after its first, and the first moves one slot back. Word t of the schedule
 * overwrites word t - 16.
 */
module PortableSha256 {
  import opened Codec
  import opened Common
  import opened Sha256
  import opened Sha256Impl

  function PortableCh(x: bv32, y: bv32, z: bv32): bv32 { z ^ (x & (y ^ z)) }

  function PortableMaj(x: bv32, y: bv32, z: bv32): bv32 { (x & y) | (z & (x | y)) }

  /** The word operations as the portable code writes them: choice and majority take fewer steps. */
  const PORTABLE := STANDARD.(ch := PortableCh, maj := PortableMaj)

  /** Where the standard's `j`-th variable sits, when its first sits in slot `a`. */
  function Slot(a: nat, j: nat): (k: nat)
    requires a < 8 && j < 8
    ensures k < 8
  {
    if a + j < 8 then a + j else a + j - 8
  }

  /** The variables in the standard's order. */
  function Named(v: Words, a: nat): Words
    requires a < 8
  {
    [v[Slot(a, 0)], v[Slot(a, 1)], v[Slot(a, 2)], v[Slot(a, 3)],
     v[Slot(a, 4)], v[Slot(a, 5)], v[Slot(a, 6)], v[Slot(a, 7)]]
  }

  /** Writing two slots and renaming is one step of the standard's shift. */
  lemma Shift(v: Words, a: nat, x: bv32, y: bv32)
    requires a < 8
    ensures var u := Named(v, a);
      Named(v[Slot(a, 3) := x][Slot(a, 7) := y], Slot(a, 7)) == [y, u[0], u[1], u[2], x, u[4], u[5], u[6]]
  {
  }

  method RoundInPlace(o: Ops, v: array<bv32>, a: nat, k: bv32, w: bv32)
    requires v.Length == 8 && a < 8
    modifies v
    ensures Named(v[..], Slot(a, 7)) == Round(o, old(Named(v[..], a)), k, w)
  {
    ghost var before: Words := v[..];
    ghost var u := Named(before, a);
    var h := o.add(o.add(v[Slot(a, 7)], o.bigSigma1(v[Slot(a, 4)])), o.ch(v[Slot(a, 4)], v[Slot(a, 5)], v[Slot(a, 6)]));
    var t1 := o.add(h, o.add(k, w));
    var t2 := o.add(o.bigSigma0(v[Slot(a, 0)]), o.maj(v[Slot(a, 0)], v[Slot(a, 1)], v[Slot(a, 2)]));
    assert t1 == T1(o, u, k, w) && t2 == T2(o, u);
    Shift(before, a, o.add(u[3], t1), o.add(t1, t2));
    v[Slot(a, 3)] := o.add(v[Slot(a, 3)], t1);
    v[Slot(a, 7)] := o.add(t1, t2);
    assert v[..] == before[Slot(a, 3) := o.add(u[3], t1)][Slot(a, 7) := o.add(t1, t2)];
  }

  /** The last sixteen words of the schedule, each in its place. */
  ghost predicate Ring(o: Ops, w: seq<bv32>, b: Chunk, t: nat) {
    |w| == 16 && forall j :: 0 <= j < t <= j + 16 ==> w[j % 16] == W(o, b, j)
  }

  lemma RingAt(o: Ops, w: seq<bv32>, b: Chunk, t: nat, j: nat)
    requires Ring(o, w, b, t) && j < t <= j + 16
    ensures w[j % 16] == W(o, b, j)
  {
  }

  lemma RingNext(o: Ops, w: seq<bv32>, b: Chunk, t: nat, x: bv32)
    requires Ring(o, w, b, t) && x == W(o, b, t)
    ensures Ring(o, w[t % 16 := x], b, t + 1)
  {
    forall j | 0 <= j < t + 1 <= j + 16
      ensures w[t % 16 := x][j % 16] == W(o, b, j)
    {
      if j < t {
        RingApart(j, t);
        RingAt(o, w, b, t, j);
      }
    }
  }

  lemma RingApart(j: nat, t: nat)
    requires j < t < j + 16
    ensures j % 16 != t % 16
  {
  }

  method NextWord(o: Ops, w: array<bv32>, b: Chunk, t: nat) returns (word: bv32)
    requires Ring(o, w[..], b, t)
    modifies w
    ensures Ring(o, w[..], b, t + 1) && word == W(o, b, t)
  {
    ghost var was := w[..];
    if t < 16 {
      word := Word(o, b, t);
    } else {
      RingAt(o, was, b, t, t - 2);
      RingAt(o, was, b, t, t - 7);
      RingAt(o, was, b, t, t - 15);
      RingAt(o, was, b, t, t - 16);
      var more := o.add(o.add(o.smallSigma1(w[(t - 2) % 16]), w[(t - 7) % 16]), o.smallSigma0(w[(t - 15) % 16]));
      word := o.add(w[(t - 16) % 16], more);
    }
    w[t % 16] := word;
    RingNext(o, was, b, t, word);
    assert w[..] == was[t % 16 := word];
  }

  predicate Aligned(a: nat, t: nat) {
    a < 8 && (a + t) % 8 == 0
  }

  lemma AlignedNext(a: nat, t: nat)
    requires Aligned(a, t)
    ensures Aligned(Slot(a, 7), t + 1)
  {
  }

  ghost predicate Done(o: Ops, v: seq<bv32>, w: seq<bv32>, s: Words, b: Chunk, a: nat, t: nat) {
    && |v| == 8 && Aligned(a, t)
    && Ring(o, w, b, t)
    && Named(v, a) == Rounds(o, s, b, t)
  }

  method Step(o: Ops, v: array<bv32>, w: array<bv32>, ghost s: Words, b: Chunk, a: nat, t: nat)
    requires v != w && Done(o, v[..], w[..], s, b, a, t)
    modifies v, w
    ensures Done(o, v[..], w[..], s, b, Slot(a, 7), t + 1)
  {
    var word := NextWord(o, w, b, t);
    RoundInPlace(o, v, a, o.constant(t), word);
    RoundsNext(o, s, b, t);
    AlignedNext(a, t);
  }

  lemma RoundsNext(o: Ops, s: Words, b: Chunk, t: nat)
    ensures Rounds(o, s, b, t + 1) == Round(o, Rounds(o, s, b, t), o.constant(t), W(o, b, t))
  {
  }

  lemma Begin(o: Ops, w: seq<bv32>, s: Words, b: Chunk)
    requires |w| == 16
    ensures Done(o, s, w, s, b, 0, 0)
  {
    Home(s);
  }

  lemma End(o: Ops, v: seq<bv32>, w: seq<bv32>, s: Words, b: Chunk, a: nat)
    requires o.rounds % 8 == 0 && Done(o, v, w, s, b, a, o.rounds)
    ensures Sum(o, s, v) == Compress(o, s, b)
  {
    assert a == 0;
    Home(v);
    SameSum(o, s, v, Rounds(o, s, b, o.rounds));
  }

  lemma SameSum(o: Ops, s: Words, v: Words, u: Words)
    requires v == u
    ensures Sum(o, s, v) == Sum(o, s, u)
  {
  }

  method TransformBlock(o: Ops, s: Words, b: Chunk) returns (r: Words)
    requires o.rounds % 8 == 0
    ensures r == Compress(o, s, b)
  {
    var v := new bv32[8](i requires 0 <= i < 8 => s[i]);
    var w := new bv32[16](_ => 0);
    assert v[..] == s;
    Begin(o, w[..], s, b);
    var a, t := 0, 0;
    while t < o.rounds
      invariant 0 <= a < 8 && t <= o.rounds
      invariant Done(o, v[..], w[..], s, b, a, t)
    {
      Step(o, v, w, s, b, a, t);
      a, t := Slot(a, 7), t + 1;
    }
    End(o, v[..], w[..], s, b, a);
    r := Sum(o, s, v[..]);
  }

  lemma Home(v: Words)
    ensures Named(v, 0) == v
  {
  }

  // ---------------------------------------------------------------- the portable word operations

  ghost predicate SameOps(o: Ops, p: Ops) {
    && o.rounds == p.rounds && o.constant == p.constant && o.add == p.add
    && o.bigSigma0 == p.bigSigma0 && o.bigSigma1 == p.bigSigma1
    && o.smallSigma0 == p.smallSigma0 && o.smallSigma1 == p.smallSigma1 && o.bigEndian == p.bigEndian
    && (forall x, y, z :: o.ch(x, y, z) == p.ch(x, y, z))
    && (forall x, y, z :: o.maj(x, y, z) == p.maj(x, y, z))
  }

  lemma {:induction false} SameW(o: Ops, p: Ops, b: Chunk, t: nat)
    requires SameOps(o, p)
    ensures W(o, b, t) == W(p, b, t)
  {
    if t >= 16 {
      SameW(o, p, b, t - 2);
      SameW(o, p, b, t - 7);
      SameW(o, p, b, t - 15);
      SameW(o, p, b, t - 16);
    }
  }

  lemma SameAt(o: Ops, p: Ops, x: bv32, y: bv32, z: bv32)
    requires SameOps(o, p)
    ensures o.ch(x, y, z) == p.ch(x, y, z) && o.maj(x, y, z) == p.maj(x, y, z)
  {
  }

  lemma SameRound(o: Ops, p: Ops, v: Words, k: bv32, w: bv32)
    requires SameOps(o, p)
    ensures Round(o, v, k, w) == Round(p, v, k, w)
  {
    SameAt(o, p, v[4], v[5], v[6]);
    SameAt(o, p, v[0], v[1], v[2]);
    assert T1(o, v, k, w) == T1(p, v, k, w) && T2(o, v) == T2(p, v);
  }

  lemma {:induction false} SameRounds(o: Ops, p: Ops, s: Words, b: Chunk, t: nat)
    requires SameOps(o, p)
    ensures Rounds(o, s, b, t) == Rounds(p, s, b, t)
  {
    if t > 0 {
      SameRounds(o, p, s, b, t - 1);
      SameW(o, p, b, t - 1);
      SameRound(o, p, Rounds(o, s, b, t - 1), o.constant(t - 1), W(o, b, t - 1));
    }
  }

  lemma SameForms(x: bv32, y: bv32, z: bv32)
    ensures z ^ (x & (y ^ z)) == (x & y) ^ (!x & z)
    ensures (x & y) | (z & (x | y)) == (x & y) ^ (x & z) ^ (y & z)
  {
  }

  lemma SameChMaj(x: bv32, y: bv32, z: bv32)
    ensures PortableCh(x, y, z) == Ch(x, y, z)
    ensures PortableMaj(x, y, z) == Maj(x, y, z)
  {
    SameForms(x, y, z);
  }

  lemma PortableIsStandard()
    ensures SameOps(PORTABLE, STANDARD)
  {
    forall x, y, z
      ensures PORTABLE.ch(x, y, z) == STANDARD.ch(x, y, z) && PORTABLE.maj(x, y, z) == STANDARD.maj(x, y, z)
    {
      SameChMaj(x, y, z);
    }
  }

  /** The portable code computes the compression function of FIPS 180-4. */
  method PortableTransform(s: Words, b: Chunk) returns (r: Words)
    ensures r == Compress(STANDARD, s, b)
  {
    r := TransformBlock(PORTABLE, s, b);
    PortableIsStandard();
    SameCompress(PORTABLE, STANDARD, s, b);
  }

  lemma SameCompress(o: Ops, p: Ops, s: Words, b: Chunk)
    requires SameOps(o, p)
    ensures Compress(o, s, b) == Compress(p, s, b)
  {
    SameRounds(o, p, s, b, o.rounds);
  }

  lemma {:induction false} SameFold(f: Transform, g: Transform, s: Words, msg: seq<byte>)
    requires |msg| % 64 == 0 && forall w: Words, b: Chunk :: f(w, b) == g(w, b)
    ensures Fold(f, s, msg) == Fold(g, s, msg)
  {
    if msg != [] {
      SameFold(f, g, s, msg[..|msg| - 64]);
    }
  }

  /** The streaming hasher over the portable compression function computes SHA-256 of everything written,
      however it is cut into pieces. */
  method HashPieces(parts: seq<seq<byte>>) returns (hash: Hash)
    ensures hash == Hash256(Concat(parts))
  {
    hash := HashParts(Compression(PORTABLE), parts);
    PortableIsStandard();
    forall w: Words, b: Chunk ensures Compression(PORTABLE)(w, b) == Compression(STANDARD)(w, b) {
      SameCompress(PORTABLE, STANDARD, w, b);
    }
    SameFold(Compression(PORTABLE), Compression(STANDARD), INITIAL, Pad(Concat(parts)));
  }
}

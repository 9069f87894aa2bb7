/**
 * The Bech32 checksum (BIP-173, section "Checksum") as linear algebra.
 *
 * A register takes in one symbol at a time: c becomes shift(c) + v, where + is XOR on machine words. The
 * laws below need only a few facts about registers, symbols and the shift; the module Register shows that
 * the 30-bit register of the code has them.
 */
module Checksum {

  datatype Algebra<!T> = Algebra(
    zero: T,
    one: T,
    add: (T, T) -> T,
    shift: T -> T,
    /** A value that one position can hold. */
    symbol: T -> bool,
    /** A register that `k` symbols can fill; six make a full one. */
    fits: (T, nat) -> bool,
    /** What a register was before its last symbol, when it had room, and that symbol. */
    high: T -> T,
    low: T -> T)
  {
    ghost predicate Regroups(a: T, b: T, c: T, d: T) { add(add(a, b), add(c, d)) == add(add(a, c), add(b, d)) }

    ghost predicate Cancels(a: T, b: T) {
      add(a, zero) == a && add(zero, a) == a && add(a, a) == zero && (add(a, b) == zero ==> a == b)
    }

    ghost predicate Distributes(a: T, b: T) { shift(add(a, b)) == add(shift(a), shift(b)) }

    ghost predicate Closed(c: T, d: T) {
      && (symbol(c) ==> fits(c, 6))
      && (symbol(c) && symbol(d) ==> symbol(add(c, d)))
      && (fits(c, 6) && fits(d, 6) ==> fits(add(c, d), 6))
    }

    /** Nothing but zero is shifted to zero. */
    ghost predicate Keeps(c: T) { fits(c, 6) ==> fits(shift(c), 6) && (shift(c) == zero ==> c == zero) }

    /** A register with room for one more symbol takes it in without touching the others. */
    ghost predicate Pushes(c: T, u: T, k: nat) {
      k < 6 && fits(c, k) && symbol(u) ==> fits(add(shift(c), u), k + 1)
    }

    ghost predicate Separates(c: T, u: T, d: T, w: T, k: nat) {
      k < 6 && fits(c, k) && fits(d, k) && symbol(u) && symbol(w) && add(shift(c), u) == add(shift(d), w)
      ==> c == d && u == w
    }

    ghost predicate Pops(c: T, k: nat) {
      k < 6 && fits(c, k + 1) ==> fits(high(c), k) && symbol(low(c)) && add(shift(high(c)), low(c)) == c
    }

    ghost predicate Starts() {
      symbol(zero) && fits(zero, 0) && fits(one, 6)
    }

    ghost predicate Empties(c: T) { fits(c, 0) ==> c == zero }
  }

  ghost predicate Group<T(!new)>(A: Algebra<T>) {
    && (forall a, b, c, d :: A.Regroups(a, b, c, d))
    && (forall a, b :: A.Cancels(a, b))
    && (forall a, b :: A.Distributes(a, b))
  }

  ghost predicate Register<T(!new)>(A: Algebra<T>) {
    && A.Starts()
    && (forall c, d :: A.Closed(c, d))
    && (forall c :: A.Keeps(c))
    && (forall c :: A.Empties(c))
    && (forall c, u, k: nat :: A.Pushes(c, u, k))
    && (forall c, u, d, w, k: nat :: A.Separates(c, u, d, w, k))
    && (forall c, k: nat :: A.Pops(c, k))
  }

  ghost predicate Lawful<T(!new)>(A: Algebra<T>) { Group(A) && Register(A) }

  function Fold<T>(A: Algebra<T>, c: T, v: seq<T>): T {
    if v == [] then c else A.add(A.shift(Fold(A, c, v[..|v| - 1])), v[|v| - 1])
  }

  predicate Symbols<T>(A: Algebra<T>, v: seq<T>) {
    forall i | 0 <= i < |v| :: A.symbol(v[i])
  }

  // ---------------------------------------------------------------- affine

  function Add<T>(A: Algebra<T>, a: seq<T>, b: seq<T>): (c: seq<T>)
    requires |a| == |b|
    ensures |c| == |a|
  {
    seq(|a|, i requires 0 <= i < |a| => A.add(a[i], b[i]))
  }

  function Zeros<T>(A: Algebra<T>, n: nat): seq<T> { seq(n, _ => A.zero) }

  lemma StepAdd<T(!new)>(A: Algebra<T>, p: T, q: T, a: T, b: T)
    requires Group(A)
    ensures A.add(A.shift(A.add(p, q)), A.add(a, b)) == A.add(A.add(A.shift(p), a), A.add(A.shift(q), b))
  {
    assert A.Distributes(p, q);
    assert A.Regroups(A.shift(p), A.shift(q), a, b);
  }

  /** Folding commutes with addition, of the registers and of the symbols. */
  lemma {:induction false} FoldAdd<T(!new)>(A: Algebra<T>, c: T, d: T, a: seq<T>, b: seq<T>)
    requires Group(A) && |a| == |b|
    ensures Fold(A, A.add(c, d), Add(A, a, b)) == A.add(Fold(A, c, a), Fold(A, d, b))
  {
    if a != [] {
      var n := |a| - 1;
      FoldAdd(A, c, d, a[..n], b[..n]);
      assert Add(A, a, b)[..n] == Add(A, a[..n], b[..n]);
      StepAdd(A, Fold(A, c, a[..n]), Fold(A, d, b[..n]), a[n], b[n]);
    }
  }

  lemma {:induction false} FoldAppend<T>(A: Algebra<T>, c: T, a: seq<T>, b: seq<T>)
    ensures Fold(A, c, a + b) == Fold(A, Fold(A, c, a), b)
    decreases |b|
  {
    if b == [] {
      assert a + b == a;
    } else {
      var n := |b| - 1;
      FoldAppend(A, c, a, b[..n]);
      assert (a + b)[..|a + b| - 1] == a + b[..n];
    }
  }

  // ---------------------------------------------------------------- nothing is lost

  lemma {:induction false} FoldFits<T(!new)>(A: Algebra<T>, c: T, v: seq<T>)
    requires Register(A) && A.fits(c, 6) && Symbols(A, v)
    ensures A.fits(Fold(A, c, v), 6)
  {
    if v != [] {
      var n := |v| - 1;
      FoldFits(A, c, v[..n]);
      var p := Fold(A, c, v[..n]);
      assert A.symbol(v[n]);
      assert A.Keeps(p) && A.Closed(v[n], p) && A.Closed(A.shift(p), v[n]);
    }
  }

  /** Zeros after an error do not hide it. */
  lemma {:induction false} ZerosKeep<T(!new)>(A: Algebra<T>, c: T, n: nat)
    requires Lawful(A) && A.fits(c, 6) && c != A.zero
    ensures Fold(A, c, Zeros(A, n)) != A.zero
  {
    if n > 0 {
      assert Zeros(A, n)[..n - 1] == Zeros(A, n - 1);
      ZerosKeep(A, c, n - 1);
      FoldFits(A, c, Zeros(A, n - 1));
      var p := Fold(A, c, Zeros(A, n - 1));
      assert A.Keeps(p) && A.Cancels(A.shift(p), A.zero);
    }
  }

  lemma ShiftZero<T(!new)>(A: Algebra<T>)
    requires Group(A)
    ensures A.shift(A.zero) == A.zero
  {
    var s := A.shift(A.zero);
    assert A.Cancels(A.zero, A.zero) && A.Distributes(A.zero, A.zero) && A.Cancels(s, s);
  }

  /** Zeros before an error leave the register at zero. */
  lemma {:induction false} ZerosIdle<T(!new)>(A: Algebra<T>, n: nat)
    requires Group(A)
    ensures Fold(A, A.zero, Zeros(A, n)) == A.zero
  {
    if n > 0 {
      assert Zeros(A, n)[..n - 1] == Zeros(A, n - 1);
      ZerosIdle(A, n - 1);
      ShiftZero(A);
      assert A.Cancels(A.zero, A.zero);
    }
  }

  lemma {:induction false} ShortFold<T(!new)>(A: Algebra<T>, v: seq<T>)
    requires Register(A) && Symbols(A, v) && |v| <= 6
    ensures A.fits(Fold(A, A.zero, v), |v|)
  {
    if v != [] {
      var n := |v| - 1;
      ShortFold(A, v[..n]);
      assert A.symbol(v[n]) && A.Pushes(Fold(A, A.zero, v[..n]), v[n], n);
    }
  }

  /** Up to six symbols sit side by side: different symbols, different register. */
  lemma {:induction false} ShortInjective<T(!new)>(A: Algebra<T>, v: seq<T>, w: seq<T>)
    requires Register(A) && Symbols(A, v) && Symbols(A, w) && |v| == |w| <= 6
    requires Fold(A, A.zero, v) == Fold(A, A.zero, w)
    ensures v == w
  {
    if v != [] {
      var n := |v| - 1;
      var x, y := Fold(A, A.zero, v[..n]), Fold(A, A.zero, w[..n]);
      ShortFold(A, v[..n]);
      ShortFold(A, w[..n]);
      assert A.symbol(v[n]) && A.symbol(w[n]) && A.Separates(x, v[n], y, w[n], n);
      ShortInjective(A, v[..n], w[..n]);
      assert v == v[..n] + [v[n]] && w == w[..n] + [w[n]];
    }
  }

  /** The symbols of a register, first to last. */
  function Unpack<T>(A: Algebra<T>, m: T, k: nat): (v: seq<T>)
    ensures |v| == k
  {
    if k == 0 then [] else Unpack(A, A.high(m), k - 1) + [A.low(m)]
  }

  lemma {:induction false} FoldUnpack<T(!new)>(A: Algebra<T>, m: T, k: nat)
    requires Register(A) && k <= 6 && A.fits(m, k)
    ensures Fold(A, A.zero, Unpack(A, m, k)) == m && Symbols(A, Unpack(A, m, k))
  {
    if k == 0 {
      assert A.Empties(m);
    } else {
      assert A.Pops(m, k - 1);
      FoldUnpack(A, A.high(m), k - 1);
      assert Unpack(A, m, k)[..k - 1] == Unpack(A, A.high(m), k - 1);
    }
  }

  // ---------------------------------------------------------------- the laws of the checksum

  function PolyMod<T>(A: Algebra<T>, v: seq<T>): T { Fold(A, A.one, v) }

  /** PolyMod is affine. */
  lemma PolyModAffine<T(!new)>(A: Algebra<T>, a: seq<T>, b: seq<T>, c: seq<T>)
    requires Group(A) && |a| == |b| == |c|
    ensures PolyMod(A, Add(A, Add(A, a, b), c)) == A.add(A.add(PolyMod(A, a), PolyMod(A, b)), PolyMod(A, c))
  {
    assert A.Cancels(A.one, A.one);
    FoldAdd(A, A.one, A.one, a, b);
    FoldAdd(A, A.zero, A.one, Add(A, a, b), c);
  }

  /** What an error adds to the checksum depends on the error alone. */
  lemma Syndrome<T(!new)>(A: Algebra<T>, a: seq<T>, b: seq<T>)
    requires Group(A) && |a| == |b|
    ensures A.add(PolyMod(A, a), PolyMod(A, b)) == Fold(A, A.zero, Add(A, a, b))
  {
    assert A.Cancels(A.one, A.one);
    FoldAdd(A, A.one, A.one, a, b);
  }

  /** The six symbols to append: the register after six zeros, with one taken off. */
  function Create<T>(A: Algebra<T>, v: seq<T>): (c: seq<T>)
    ensures |c| == 6
  {
    Unpack(A, A.add(PolyMod(A, v + Zeros(A, 6)), A.one), 6)
  }

  lemma AddZeros<T(!new)>(A: Algebra<T>, u: seq<T>)
    requires Group(A)
    ensures Add(A, Zeros(A, |u|), u) == u
  {
    forall i | 0 <= i < |u| ensures Add(A, Zeros(A, |u|), u)[i] == u[i] {
      assert A.Cancels(u[i], u[i]);
    }
  }

  lemma SplitSix<T(!new)>(A: Algebra<T>, s: T, u: seq<T>)
    requires Group(A) && |u| == 6
    ensures Fold(A, s, u) == A.add(Fold(A, s, Zeros(A, 6)), Fold(A, A.zero, u))
  {
    FoldAdd(A, s, A.zero, Zeros(A, 6), u);
    assert A.Cancels(s, s);
    AddZeros(A, u);
  }

  lemma SolveOne<T(!new)>(A: Algebra<T>, z: T, x: T)
    requires Group(A)
    ensures A.add(z, x) == A.one <==> x == A.add(z, A.one)
  {
    var a, zero, one := A.add, A.zero, A.one;
    assert A.Regroups(z, x, zero, one) && A.Regroups(z, zero, x, one) && A.Regroups(z, z, zero, one);
    assert A.Cancels(one, one) && A.Cancels(z, z) && A.Cancels(x, one) && A.Cancels(a(z, x), one);
    assert A.Cancels(x, a(z, one));
    assert A.Regroups(zero, x, z, one) && A.Regroups(zero, z, x, one);
  }

  lemma CreateIs<T(!new)>(A: Algebra<T>, v: seq<T>)
    requires Lawful(A) && Symbols(A, v)
    ensures var z := Fold(A, PolyMod(A, v), Zeros(A, 6));
            Fold(A, A.zero, Create(A, v)) == A.add(z, A.one) && Symbols(A, Create(A, v))
  {
    var s := PolyMod(A, v);
    FoldAppend(A, A.one, v, Zeros(A, 6));
    var z := Fold(A, s, Zeros(A, 6));
    FoldFits(A, A.one, v);
    FoldFits(A, s, Zeros(A, 6));
    assert A.Closed(z, A.one);
    FoldUnpack(A, A.add(z, A.one), 6);
  }

  /** Six symbols make the checksum come out as one exactly when they are the ones created. */
  lemma ChecksumUnique<T(!new)>(A: Algebra<T>, v: seq<T>, u: seq<T>)
    requires Lawful(A) && Symbols(A, v) && Symbols(A, u) && |u| == 6
    ensures PolyMod(A, v + u) == A.one <==> u == Create(A, v)
  {
    var s := PolyMod(A, v);
    FoldAppend(A, A.one, v, u);
    SplitSix(A, s, u);
    CreateIs(A, v);
    SolveOne(A, Fold(A, s, Zeros(A, 6)), Fold(A, A.zero, u));
    if Fold(A, A.zero, u) == Fold(A, A.zero, Create(A, v)) {
      ShortInjective(A, u, Create(A, v));
    }
  }

  /** `a` and `b` differ, but only within six positions from `i` on. */
  predicate Burst<T(==)>(a: seq<T>, b: seq<T>, i: nat) {
    && |a| == |b| && a != b
    && (forall k | 0 <= k < |a| && !(i <= k < i + 6) :: a[k] == b[k])
  }

  lemma AddEqual<T(!new)>(A: Algebra<T>, a: seq<T>, b: seq<T>)
    requires Group(A) && |a| == |b| && Add(A, a, b) == Zeros(A, |a|)
    ensures a == b
  {
    forall k | 0 <= k < |a| ensures a[k] == b[k] {
      assert Add(A, a, b)[k] == A.zero && A.Cancels(a[k], b[k]);
    }
  }

  /** The error pattern of a burst: zeros, at most six symbols that are not all zero, zeros. */
  lemma BurstShape<T(!new)>(A: Algebra<T>, a: seq<T>, b: seq<T>, i: nat) returns (m: seq<T>, n: nat)
    requires Group(A) && Burst(a, b, i) && i < |a|
    ensures |m| <= 6 && m != Zeros(A, |m|) && Add(A, a, b) == Zeros(A, i) + m + Zeros(A, n)
  {
    var j := if i + 6 < |a| then i + 6 else |a|;
    var d := Add(A, a, b);
    m, n := d[i..j], |a| - j;
    forall k | 0 <= k < |a| && !(i <= k < j) ensures d[k] == A.zero {
      assert A.Cancels(a[k], b[k]);
    }
    assert d == Zeros(A, i) + m + Zeros(A, n);
    if m == Zeros(A, |m|) {
      assert d == Zeros(A, |a|);
      AddEqual(A, a, b);
    }
  }

  lemma AddSymbols<T(!new)>(A: Algebra<T>, a: seq<T>, b: seq<T>)
    requires Register(A) && Symbols(A, a) && Symbols(A, b) && |a| == |b|
    ensures Symbols(A, Add(A, a, b))
  {
    forall k | 0 <= k < |a| ensures A.symbol(Add(A, a, b)[k]) {
      assert A.Closed(a[k], b[k]);
    }
  }

  /** A register that takes in a few symbols, not all zero, and then zeros, is not zero. */
  lemma ErrorShows<T(!new)>(A: Algebra<T>, i: nat, m: seq<T>, n: nat)
    requires Lawful(A) && Symbols(A, m) && |m| <= 6 && m != Zeros(A, |m|)
    ensures Fold(A, A.zero, Zeros(A, i) + m + Zeros(A, n)) != A.zero
  {
    FoldAppend(A, A.zero, Zeros(A, i) + m, Zeros(A, n));
    FoldAppend(A, A.zero, Zeros(A, i), m);
    ZerosIdle(A, i);
    ZerosIdle(A, |m|);
    var c := Fold(A, A.zero, m);
    assert A.Closed(A.zero, A.zero);
    FoldFits(A, A.zero, m);
    if c == A.zero { ShortInjective(A, m, Zeros(A, |m|)); }
    ZerosKeep(A, c, n);
  }

  /** A change confined to six consecutive symbols changes the checksum, at every length. */
  lemma BurstDetected<T(!new)>(A: Algebra<T>, a: seq<T>, b: seq<T>, i: nat)
    requires Lawful(A) && Symbols(A, a) && Symbols(A, b) && Burst(a, b, i)
    ensures PolyMod(A, a) != PolyMod(A, b)
  {
    if i < |a| {
      var m, n := BurstShape(A, a, b, i);
      AddSymbols(A, a, b);
      assert m == Add(A, a, b)[i..i + |m|];
      ErrorShows(A, i, m, n);
      Syndrome(A, a, b);
      assert A.Cancels(PolyMod(A, a), PolyMod(A, b));
    }
  }
}

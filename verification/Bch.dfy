/** A register that divides by a generator keeps the value of its polynomial at every root of the generator.
    With three consecutive powers of `e` among the roots, up to three errors within a period are detected. */
module Bch {
  import opened Checksum
  import opened Evaluation
  import opened Remainder

  function Map<S, T>(f: S -> T, v: seq<S>): (w: seq<T>)
    ensures |w| == |v|
  {
    seq(|v|, i requires 0 <= i < |v| => f(v[i]))
  }

  ghost predicate EmbedsAt<S, T>(A: Algebra<S>, F: Algebra<T>, f: S -> T, x: S, y: S) {
    f(A.add(x, y)) == F.add(f(x), f(y)) && (A.symbol(x) && f(x) == F.zero ==> x == A.zero)
  }

  /** Symbols are elements of the larger field: `f` keeps sums, and no symbol but zero becomes zero. */
  ghost predicate Embeds<S(!new), T>(A: Algebra<S>, F: Algebra<T>, f: S -> T) {
    f(A.zero) == F.zero && forall x, y :: EmbedsAt(A, F, f, x, y)
  }

  lemma MapAdd<S(!new), T>(A: Algebra<S>, F: Algebra<T>, f: S -> T, a: seq<S>, b: seq<S>)
    requires Embeds(A, F, f) && |a| == |b|
    ensures Map(f, Add(A, a, b)) == Add(F, Map(f, a), Map(f, b))
  {
    forall i | 0 <= i < |a| ensures Map(f, Add(A, a, b))[i] == Add(F, Map(f, a), Map(f, b))[i] {
      assert EmbedsAt(A, F, f, a[i], b[i]);
    }
  }

  ghost predicate RootAt<S, T>(A: Algebra<S>, R: Ring<S>, F: Algebra<T>, f: S -> T, k: nat, x: S) {
    A.symbol(x) ==> ZeroAt(F, k, Map(f, Scale(R, x)))
  }

  /** `e^k` is a root of the generator and of its multiples by symbols. */
  ghost predicate Root<S(!new), T>(A: Algebra<S>, R: Ring<S>, F: Algebra<T>, f: S -> T, k: nat) {
    forall x :: RootAt(A, R, F, f, k, x)
  }

  /** The value at `e^k` of the polynomial with these coefficients. */
  function Value<S, T>(F: Algebra<T>, f: S -> T, k: nat, v: seq<S>): T { Fold(At(F, k), F.zero, Map(f, v)) }

  lemma ValueSnoc<S, T>(F: Algebra<T>, f: S -> T, k: nat, v: seq<S>, u: S)
    ensures Value(F, f, k, v + [u]) == F.add(Power(F.shift, k, Value(F, f, k, v)), f(u))
  {
    assert Map(f, v + [u])[..|v|] == Map(f, v);
  }

  lemma ValueAdd<S(!new), T(!new)>(A: Algebra<S>, F: Algebra<T>, f: S -> T, k: nat, a: seq<S>, b: seq<S>)
    requires Group(F) && Embeds(A, F, f) && |a| == |b|
    ensures Value(F, f, k, Add(A, a, b)) == F.add(Value(F, f, k, a), Value(F, f, k, b))
  {
    var G := At(F, k);
    AtGroup(F, k);
    MapAdd(A, F, f, a, b);
    assert F.Cancels(F.zero, F.zero);
    assert Add(G, Map(f, a), Map(f, b)) == Add(F, Map(f, a), Map(f, b));
    FoldAdd(G, F.zero, F.zero, Map(f, a), Map(f, b));
  }

  /** Leading zeros do not matter. */
  lemma ValueLead<S(!new), T(!new)>(A: Algebra<S>, F: Algebra<T>, f: S -> T, k: nat, v: seq<S>)
    requires Group(F) && Embeds(A, F, f)
    ensures Value(F, f, k, [A.zero] + v) == Value(F, f, k, v)
  {
    var G := At(F, k);
    AtGroup(F, k);
    assert Map(f, [A.zero] + v) == Zeros(G, 1) + Map(f, v);
    FoldAppend(G, F.zero, Zeros(G, 1), Map(f, v));
    ZerosIdle(G, 1);
  }

  ghost predicate Evaluates<S(!new), T(!new)>(A: Algebra<S>, R: Ring<S>, F: Algebra<T>, f: S -> T, k: nat) {
    Lawful(A) && Dividing(A, R) && Group(F) && Embeds(A, F, f) && Root(A, R, F, f, k)
  }

  /** A step of the division multiplies the value at a root and adds the new coefficient. */
  lemma ValueDivide<S(!new), T(!new)>(A: Algebra<S>, R: Ring<S>, F: Algebra<T>, f: S -> T, k: nat, r: seq<S>, u: S)
    requires Evaluates(A, R, F, f, k) && |r| == 6 && A.symbol(r[0]) && R.mul(r[0], R.generator[0]) == r[0]
    ensures Value(F, f, k, Divide(A, R, r, u)) == F.add(Power(F.shift, k, Value(F, f, k, r)), f(u))
  {
    var s := Divide(A, R, r, u);
    StepIdentity(A, R, r, u);
    ValueAdd(A, F, f, k, Scale(R, r[0]), [A.zero] + s);
    assert RootAt(A, R, F, f, k, r[0]);
    assert F.Cancels(Value(F, f, k, [A.zero] + s), F.zero);
    ValueLead(A, F, f, k, s);
    ValueSnoc(F, f, k, r, u);
  }

  /** The register has the value of the polynomial it has taken in, at every root of the generator. */
  lemma {:induction false} RegisterValue<S(!new), T(!new)>(A: Algebra<S>, R: Ring<S>, F: Algebra<T>, f: S -> T,
    k: nat, v: seq<S>)
    requires Evaluates(A, R, F, f, k) && Symbols(A, v)
    ensures Value(F, f, k, Unpack(A, Fold(A, A.zero, v), 6)) == Value(F, f, k, v)
  {
    if v == [] {
      ZeroRegister(A, F, f, k);
    } else {
      var n := |v| - 1;
      var c := Fold(A, A.zero, v[..n]);
      RegisterValue(A, R, F, f, k, v[..n]);
      assert A.Closed(A.zero, A.zero);
      FoldFits(A, A.zero, v[..n]);
      FoldUnpack(A, c, 6);
      assert Divides(A, R, c, v[n]);
      ValueDivide(A, R, F, f, k, Unpack(A, c, 6), v[n]);
      ValueSnoc(F, f, k, v[..n], v[n]);
      assert v == v[..n] + [v[n]];
    }
  }

  lemma ZeroRegister<S(!new), T(!new)>(A: Algebra<S>, F: Algebra<T>, f: S -> T, k: nat)
    requires Lawful(A) && Group(F) && Embeds(A, F, f)
    ensures Value(F, f, k, Unpack(A, A.zero, 6)) == F.zero
  {
    UnpackZero(A);
    var G := At(F, k);
    AtGroup(F, k);
    assert Map(f, Zeros(A, 6)) == Zeros(G, 6);
    ZerosIdle(G, 6);
  }

  lemma UnpackZero<S(!new)>(A: Algebra<S>)
    requires Lawful(A)
    ensures Unpack(A, A.zero, 6) == Zeros(A, 6)
  {
    assert A.Closed(A.zero, A.zero);
    FoldUnpack(A, A.zero, 6);
    ZerosIdle(A, 6);
    ShortInjective(A, Unpack(A, A.zero, 6), Zeros(A, 6));
  }

  // ---------------------------------------------------------------- detection

  /** `a` and `b` differ, in no more than the three places `i`, `j` and `l`, which may coincide and are less
      than `period` apart. */
  predicate Scattered<T(==)>(a: seq<T>, b: seq<T>, i: nat, j: nat, l: nat, period: nat) {
    && |a| == |b| && a != b && i <= j <= l < |a| && l - i < period
    && (forall m | 0 <= m < |a| && m != i && m != j && m != l :: a[m] == b[m])
  }

  /** Three roots at consecutive powers of an element whose powers differ within a period. */
  ghost predicate Designed<S(!new), T(!new)>(A: Algebra<S>, R: Ring<S>, F: Algebra<T>, f: S -> T, k: nat, period: nat) {
    Faithful(F, period) && Evaluates(A, R, F, f, k) && Evaluates(A, R, F, f, k + 1) && Evaluates(A, R, F, f, k + 2)
  }

  /** The error up to its last place, as a polynomial. */
  lemma ErrorIsSparse<S(!new), T(!new)>(A: Algebra<S>, F: Algebra<T>, f: S -> T, d: seq<S>, i: nat, j: nat)
    requires Group(F) && Embeds(A, F, f) && i <= j < |d|
    requires forall m | 0 <= m < |d| - 1 && m != i && m != j :: d[m] == A.zero
    ensures var n := |d|; var x := if i == j then F.zero else f(d[i]); var y := if j == n - 1 then F.zero else f(d[j]);
            Map(f, d) == Sparse(F, n, i, j, x, y, f(d[n - 1]))
  {
    var n := |d|;
    var x, y := if i == j then F.zero else f(d[i]), if j == n - 1 then F.zero else f(d[j]);
    var w := Sparse(F, n, i, j, x, y, f(d[n - 1]));
    forall m | 0 <= m < n ensures Map(f, d)[m] == w[m] {
      SparseTerm(F, n, i, j, x, y, f(d[n - 1]), m);
      assert F.Cancels(f(d[m]), F.zero) && F.Cancels(F.zero, F.zero);
    }
  }

  lemma SparseTerm<T>(F: Algebra<T>, n: nat, i: nat, j: nat, x: T, y: T, z: T, m: nat)
    requires i < n && j < n && m < n
    ensures Sparse(F, n, i, j, x, y, z)[m]
         == F.add(F.add(if m == i then x else F.zero, if m == j then y else F.zero), if m == n - 1 then z else F.zero)
  {
  }

  /** An error of this kind that leaves the register at zero is no error. */
  lemma SparseError<S(!new), T(!new)>(A: Algebra<S>, R: Ring<S>, F: Algebra<T>, f: S -> T, k: nat, period: nat,
    d: seq<S>, i: nat, j: nat)
    requires Designed(A, R, F, f, k, period) && Symbols(A, d) && i <= j < |d| <= i + period
    requires forall m | 0 <= m < |d| - 1 && m != i && m != j :: d[m] == A.zero
    requires Fold(A, A.zero, d) == A.zero
    ensures d[i] == d[j] == d[|d| - 1] == A.zero
  {
    var n := |d|;
    var x, y := if i == j then F.zero else f(d[i]), if j == n - 1 then F.zero else f(d[j]);
    ErrorIsSparse(A, F, f, d, i, j);
    AllVanish(A, R, F, f, k, period, d);
    SparseIsZero(F, period, k, n, i, j, x, y, f(d[n - 1]));
    OnlyZero(A, F, f, d[i]);
    OnlyZero(A, F, f, d[j]);
    OnlyZero(A, F, f, d[n - 1]);
  }

  lemma OnlyZero<S(!new), T>(A: Algebra<S>, F: Algebra<T>, f: S -> T, x: S)
    requires Embeds(A, F, f) && A.symbol(x)
    ensures f(x) == F.zero ==> x == A.zero
  {
    assert EmbedsAt(A, F, f, x, x);
  }

  lemma AllVanish<S(!new), T(!new)>(A: Algebra<S>, R: Ring<S>, F: Algebra<T>, f: S -> T, k: nat, period: nat, d: seq<S>)
    requires Designed(A, R, F, f, k, period) && Symbols(A, d) && Fold(A, A.zero, d) == A.zero
    ensures ZeroAt(F, k, Map(f, d)) && ZeroAt(F, k + 1, Map(f, d)) && ZeroAt(F, k + 2, Map(f, d))
  {
    ErrorVanishes(A, R, F, f, k, d);
    ErrorVanishes(A, R, F, f, k + 1, d);
    ErrorVanishes(A, R, F, f, k + 2, d);
  }

  lemma ErrorVanishes<S(!new), T(!new)>(A: Algebra<S>, R: Ring<S>, F: Algebra<T>, f: S -> T, k: nat, d: seq<S>)
    requires Evaluates(A, R, F, f, k) && Symbols(A, d) && Fold(A, A.zero, d) == A.zero
    ensures ZeroAt(F, k, Map(f, d))
  {
    RegisterValue(A, R, F, f, k, d);
    ZeroRegister(A, F, f, k);
  }

  lemma DropTail<S(!new)>(A: Algebra<S>, d: seq<S>, l: nat)
    requires Lawful(A) && Symbols(A, d) && l < |d| && Fold(A, A.zero, d) == A.zero
    requires forall m | l < m < |d| :: d[m] == A.zero
    ensures Fold(A, A.zero, d[..l + 1]) == A.zero
  {
    var n := |d| - 1 - l;
    var c := Fold(A, A.zero, d[..l + 1]);
    assert d == d[..l + 1] + Zeros(A, n);
    FoldAppend(A, A.zero, d[..l + 1], Zeros(A, n));
    assert A.Closed(A.zero, A.zero);
    FoldFits(A, A.zero, d[..l + 1]);
    if c != A.zero { ZerosKeep(A, c, n); }
  }

  /** Changing at most three symbols less than a period apart changes the checksum, at every length. */
  lemma ScatteredDetected<S(!new), T(!new)>(A: Algebra<S>, R: Ring<S>, F: Algebra<T>, f: S -> T, k: nat, period: nat,
    a: seq<S>, b: seq<S>, i: nat, j: nat, l: nat)
    requires Designed(A, R, F, f, k, period) && Symbols(A, a) && Symbols(A, b) && Scattered(a, b, i, j, l, period)
    ensures PolyMod(A, a) != PolyMod(A, b)
  {
    var d := Add(A, a, b);
    AddSymbols(A, a, b);
    Syndrome(A, a, b);
    assert A.Cancels(PolyMod(A, a), PolyMod(A, a));
    if PolyMod(A, a) == PolyMod(A, b) {
      forall m | 0 <= m < |a| && m != i && m != j && m != l ensures d[m] == A.zero {
        assert A.Cancels(a[m], b[m]);
      }
      DropTail(A, d, l);
      SparseError(A, R, F, f, k, period, d[..l + 1], i, j);
      assert d == Zeros(A, |a|);
      AddEqual(A, a, b);
      assert false;
    }
  }
}

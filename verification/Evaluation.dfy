/**
 * Why a cyclic code detects scattered errors: polynomials are evaluated at consecutive powers of an element
 * `e` of a larger field. Multiplication by `e` is all that is needed of that field; it is the shift of an
 * algebra whose registers are the elements of the field.
 */
module Evaluation {
  import opened Checksum
  import opened Remainder

  function Power<T>(f: T -> T, n: nat, x: T): T { if n == 0 then x else f(Power(f, n - 1, x)) }

  lemma {:induction false} PowerAdd<T>(f: T -> T, m: nat, n: nat, x: T)
    ensures Power(f, m + n, x) == Power(f, m, Power(f, n, x))
  {
    if m > 0 { PowerAdd(f, m - 1, n, x); }
  }

  /** The field with multiplication by `e^k` in place of multiplication by `e`: folding in it evaluates a
      polynomial at `e^k`. */
  function At<T>(F: Algebra<T>, k: nat): Algebra<T> { F.(shift := x => Power(F.shift, k, x)) }

  lemma {:induction false} PowerAt<T>(F: Algebra<T>, k: nat, n: nat, x: T)
    ensures Power(At(F, k).shift, n, x) == Power(F.shift, k * n, x)
  {
    if n == 0 {
      assert k * n == 0;
    } else {
      PowerAt(F, k, n - 1, x);
      PowerAdd(F.shift, k, k * (n - 1), x);
      assert k * n == k + k * (n - 1);
    }
  }

  lemma {:induction false} PowerSum<T(!new)>(F: Algebra<T>, n: nat, x: T, y: T)
    requires Group(F)
    ensures Power(F.shift, n, F.add(x, y)) == F.add(Power(F.shift, n, x), Power(F.shift, n, y))
  {
    if n > 0 {
      PowerSum(F, n - 1, x, y);
      assert F.Distributes(Power(F.shift, n - 1, x), Power(F.shift, n - 1, y));
    }
  }

  lemma {:induction false} PowerZero<T(!new)>(F: Algebra<T>, n: nat)
    requires Group(F)
    ensures Power(F.shift, n, F.zero) == F.zero
  {
    if n > 0 {
      PowerZero(F, n - 1);
      ShiftZero(F);
    }
  }

  lemma AtGroup<T(!new)>(F: Algebra<T>, k: nat)
    requires Group(F)
    ensures Group(At(F, k))
  {
    var G := At(F, k);
    forall a, b, c, d ensures G.Regroups(a, b, c, d) { assert F.Regroups(a, b, c, d); }
    forall a, b ensures G.Cancels(a, b) { assert F.Cancels(a, b); }
    forall a, b ensures G.Distributes(a, b) { PowerSum(F, k, a, b); }
  }

  // ---------------------------------------------------------------- powers are distinct

  /** `e^n` is not 1 for 0 < n < period. */
  ghost predicate Turns<T>(F: Algebra<T>, period: nat, n: nat, x: T) {
    0 < n < period && Power(F.shift, n, x) == x ==> x == F.zero
  }

  ghost predicate Faithful<T(!new)>(F: Algebra<T>, period: nat) {
    && Group(F)
    && (forall x :: Nonzero(F, x))
    && (forall n: nat, x :: Turns(F, period, n, x))
  }

  ghost predicate Nonzero<T>(F: Algebra<T>, x: T) { F.shift(x) == F.zero ==> x == F.zero }

  lemma {:induction false} PowerNonzero<T(!new)>(F: Algebra<T>, period: nat, n: nat, x: T)
    requires Faithful(F, period) && Power(F.shift, n, x) == F.zero
    ensures x == F.zero
  {
    if n > 0 {
      assert Nonzero(F, Power(F.shift, n - 1, x));
      PowerNonzero(F, period, n - 1, x);
    }
  }

  lemma PowerCancels<T(!new)>(F: Algebra<T>, period: nat, n: nat, x: T, y: T)
    requires Faithful(F, period) && Power(F.shift, n, x) == Power(F.shift, n, y)
    ensures x == y
  {
    var u := Power(F.shift, n, x);
    PowerSum(F, n, x, y);
    assert F.Cancels(u, u) && F.Cancels(x, y);
    PowerNonzero(F, period, n, F.add(x, y));
  }

  /** Different powers of `e` take a nonzero element to different places. */
  lemma PowersDiffer<T(!new)>(F: Algebra<T>, period: nat, p: nat, q: nat, z: T)
    requires Faithful(F, period) && q < p < q + period && Power(F.shift, p, z) == Power(F.shift, q, z)
    ensures z == F.zero
  {
    PowerAdd(F.shift, q, p - q, z);
    PowerCancels(F, period, q, Power(F.shift, p - q, z), z);
    assert Turns(F, period, p - q, z);
  }

  // ---------------------------------------------------------------- three unknowns, three equations

  ghost predicate Vanishes<T>(F: Algebra<T>, x: T, y: T, z: T) { F.add(F.add(x, y), z) == F.zero }

  lemma Both<T(!new)>(F: Algebra<T>, x: T, y: T, x': T, y': T, z: T)
    requires Group(F) && Vanishes(F, x, y, z) && Vanishes(F, x', y', z)
    ensures F.add(x', x) == F.add(y', y)
  {
    var s, t := F.add(x, y), F.add(x', y');
    assert F.Cancels(s, z) && F.Cancels(t, z) && F.Cancels(t, s);
    assert F.Regroups(x', y', x, y);
    assert F.Cancels(F.add(x', x), F.add(y', y));
  }

  /** The equations for the errors `x`, `y` and `z`, found `p`, `q` and 0 places before the end. */
  ghost predicate Equations<T>(F: Algebra<T>, p: nat, q: nat, x: T, y: T, z: T) {
    && Vanishes(F, x, y, z)
    && Vanishes(F, Power(F.shift, p, x), Power(F.shift, q, y), z)
    && Vanishes(F, Power(F.shift, 2 * p, x), Power(F.shift, 2 * q, y), z)
  }

  /** The last unknown drops out of the equations, and the other two give the same element `u`. */
  lemma DropLast<T(!new)>(F: Algebra<T>, p: nat, q: nat, x: T, y: T, z: T) returns (u: T)
    requires Group(F) && Equations(F, p, q, x, y, z)
    ensures u == F.add(Power(F.shift, p, x), x) == F.add(Power(F.shift, q, y), y)
    ensures Power(F.shift, p, u) == Power(F.shift, q, u)
  {
    var x', y' := Power(F.shift, p, x), Power(F.shift, q, y);
    PowerAdd(F.shift, p, p, x);
    PowerAdd(F.shift, q, q, y);
    Both(F, x, y, x', y', z);
    Both(F, x', y', Power(F.shift, p, x'), Power(F.shift, q, y'), z);
    u := F.add(x', x);
    PowerSum(F, p, x', x);
    PowerSum(F, q, y', y);
  }

  /** An unknown moved by `p` to itself is zero. */
  lemma Still<T(!new)>(F: Algebra<T>, period: nat, p: nat, x: T)
    requires Faithful(F, period) && 0 < p < period && F.add(Power(F.shift, p, x), x) == F.zero
    ensures x == F.zero
  {
    assert F.Cancels(Power(F.shift, p, x), x);
    assert Turns(F, period, p, x);
  }

  lemma Eliminate<T(!new)>(F: Algebra<T>, period: nat, p: nat, q: nat, x: T, y: T, z: T)
    requires Faithful(F, period) && q <= p < period && Equations(F, p, q, x, y, z)
    requires (p == q ==> x == F.zero) && (q == 0 ==> y == F.zero)
    ensures x == y == z == F.zero
  {
    var u := DropLast(F, p, q, x, y, z);
    if q < p {
      PowersDiffer(F, period, p, q, u);
      Still(F, period, p, x);
    } else {
      PowerZero(F, p);
    }
    assert F.Cancels(F.zero, F.zero);
    assert u == F.zero;
    if q > 0 { Still(F, period, q, y); }
    assert F.Cancels(F.zero, z);
  }

  // ---------------------------------------------------------------- polynomials with three coefficients

  /** `x` at place `i` of `n` and zero elsewhere. */
  function Spike<T>(A: Algebra<T>, n: nat, i: nat, x: T): (v: seq<T>)
    requires i < n
    ensures |v| == n
  {
    Zeros(A, i) + [x] + Zeros(A, n - 1 - i)
  }

  lemma {:induction false} FoldZeros<T(!new)>(A: Algebra<T>, c: T, n: nat)
    requires Group(A)
    ensures Fold(A, c, Zeros(A, n)) == Power(A.shift, n, c)
  {
    if n > 0 {
      assert Zeros(A, n)[..n - 1] == Zeros(A, n - 1);
      FoldZeros(A, c, n - 1);
      assert A.Cancels(Power(A.shift, n, c), A.zero);
    }
  }

  lemma FoldSpike<T(!new)>(A: Algebra<T>, n: nat, i: nat, x: T)
    requires Group(A) && i < n
    ensures Fold(A, A.zero, Spike(A, n, i, x)) == Power(A.shift, n - 1 - i, x)
  {
    FoldAppend(A, A.zero, Zeros(A, i) + [x], Zeros(A, n - 1 - i));
    FoldAppend(A, A.zero, Zeros(A, i), [x]);
    ZerosIdle(A, i);
    ShiftZero(A);
    assert A.Cancels(x, x);
    assert Fold(A, A.zero, [x]) == A.add(A.shift(Fold(A, A.zero, [])), x);
    FoldZeros(A, x, n - 1 - i);
  }

  /** A polynomial whose coefficients are `x`, `y` and `z` at places `i`, `j` and the last, added up where
      places coincide. */
  function Sparse<T>(A: Algebra<T>, n: nat, i: nat, j: nat, x: T, y: T, z: T): (v: seq<T>)
    requires i < n && j < n
    ensures |v| == n
  {
    Add(A, Add(A, Spike(A, n, i, x), Spike(A, n, j, y)), Spike(A, n, n - 1, z))
  }

  lemma FoldSparse<T(!new)>(A: Algebra<T>, n: nat, i: nat, j: nat, x: T, y: T, z: T)
    requires Group(A) && i < n && j < n
    ensures Fold(A, A.zero, Sparse(A, n, i, j, x, y, z))
         == A.add(A.add(Power(A.shift, n - 1 - i, x), Power(A.shift, n - 1 - j, y)), z)
  {
    var a, b, c := Spike(A, n, i, x), Spike(A, n, j, y), Spike(A, n, n - 1, z);
    assert Fold(A, A.zero, a) == Power(A.shift, n - 1 - i, x) by { FoldSpike(A, n, i, x); }
    assert Fold(A, A.zero, b) == Power(A.shift, n - 1 - j, y) by { FoldSpike(A, n, j, y); }
    assert Fold(A, A.zero, c) == z by { FoldSpike(A, n, n - 1, z); }
    assert Fold(A, A.zero, Add(A, Add(A, a, b), c))
        == A.add(A.add(Fold(A, A.zero, a), Fold(A, A.zero, b)), Fold(A, A.zero, c)) by {
      FoldSum(A, a, b, c);
    }
  }

  lemma FoldSum<T(!new)>(A: Algebra<T>, a: seq<T>, b: seq<T>, c: seq<T>)
    requires Group(A) && |a| == |b| == |c|
    ensures Fold(A, A.zero, Add(A, Add(A, a, b), c))
         == A.add(A.add(Fold(A, A.zero, a), Fold(A, A.zero, b)), Fold(A, A.zero, c))
  {
    assert A.Cancels(A.zero, A.zero);
    FoldAdd(A, A.zero, A.zero, Add(A, a, b), c);
    FoldAdd(A, A.zero, A.zero, a, b);
  }

  /** A polynomial with at most three coefficients that are not zero, the first and the last of them less
      than a period apart, is zero if it vanishes at three consecutive powers of `e`. */
  lemma SparseIsZero<T(!new)>(F: Algebra<T>, period: nat, k: nat, n: nat, i: nat, j: nat, x: T, y: T, z: T)
    requires Faithful(F, period) && i <= j < n <= i + period
    requires (i == j ==> x == F.zero) && (j == n - 1 ==> y == F.zero)
    requires ZeroAt(F, k, Sparse(F, n, i, j, x, y, z)) && ZeroAt(F, k + 1, Sparse(F, n, i, j, x, y, z))
    requires ZeroAt(F, k + 2, Sparse(F, n, i, j, x, y, z))
    ensures x == y == z == F.zero
  {
    var p, q := n - 1 - i, n - 1 - j;
    SparseAt(F, k, n, i, j, x, y, z);
    SparseAt(F, k + 1, n, i, j, x, y, z);
    SparseAt(F, k + 2, n, i, j, x, y, z);
    Solve(F, period, k, p, q, x, y, z);
  }

  ghost predicate ZeroAt<T>(F: Algebra<T>, k: nat, v: seq<T>) { Fold(At(F, k), F.zero, v) == F.zero }

  lemma SparseAt<T(!new)>(F: Algebra<T>, k: nat, n: nat, i: nat, j: nat, x: T, y: T, z: T)
    requires Group(F) && i < n && j < n && ZeroAt(F, k, Sparse(F, n, i, j, x, y, z))
    ensures TermsAt(F, k, n - 1 - i, n - 1 - j, x, y, z)
  {
    var G := At(F, k);
    AtGroup(F, k);
    assert Sparse(G, n, i, j, x, y, z) == Sparse(F, n, i, j, x, y, z);
    FoldSparse(G, n, i, j, x, y, z);
    PowerAt(F, k, n - 1 - i, x);
    PowerAt(F, k, n - 1 - j, y);
  }

  /** What three terms give at `e^k`. */
  ghost predicate TermsAt<T>(F: Algebra<T>, k: nat, p: nat, q: nat, x: T, y: T, z: T) {
    Vanishes(F, Power(F.shift, k * p, x), Power(F.shift, k * q, y), z)
  }

  lemma Solve<T(!new)>(F: Algebra<T>, period: nat, k: nat, p: nat, q: nat, x: T, y: T, z: T)
    requires Faithful(F, period) && q <= p < period && (p == q ==> x == F.zero) && (q == 0 ==> y == F.zero)
    requires TermsAt(F, k, p, q, x, y, z) && TermsAt(F, k + 1, p, q, x, y, z) && TermsAt(F, k + 2, p, q, x, y, z)
    ensures x == y == z == F.zero
  {
    var m, n := k * p, k * q;
    TermsEquations(F, k, p, q, x, y, z);
    PowerZero(F, m);
    PowerZero(F, n);
    Eliminate(F, period, p, q, Power(F.shift, m, x), Power(F.shift, n, y), z);
    PowerNonzero(F, period, m, x);
    PowerNonzero(F, period, n, y);
  }

  lemma TermsEquations<T>(F: Algebra<T>, k: nat, p: nat, q: nat, x: T, y: T, z: T)
    requires TermsAt(F, k, p, q, x, y, z) && TermsAt(F, k + 1, p, q, x, y, z) && TermsAt(F, k + 2, p, q, x, y, z)
    ensures Equations(F, p, q, Power(F.shift, k * p, x), Power(F.shift, k * q, y), z)
  {
    PowersOf(F.shift, k, p, x);
    PowersOf(F.shift, k, q, y);
  }

  lemma PowersOf<T>(f: T -> T, k: nat, p: nat, x: T)
    ensures Power(f, (k + 1) * p, x) == Power(f, p, Power(f, k * p, x))
    ensures Power(f, (k + 2) * p, x) == Power(f, 2 * p, Power(f, k * p, x))
  {
    PowerAdd(f, p, k * p, x);
    PowerAdd(f, 2 * p, k * p, x);
    assert (k + 1) * p == p + k * p && (k + 2) * p == 2 * p + k * p;
  }
}

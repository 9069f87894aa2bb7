/** What the checksum register holds: the remainder of a polynomial over GF(32) on division by the Bech32
    generator. Polynomials are lists of coefficients, highest power first. */
module Remainder {
  import opened Checksum

  /** A multiplication of coefficients and a generator of degree six. */
  datatype Ring<!T> = Ring(mul: (T, T) -> T, generator: seq<T>)

  function Scale<T>(R: Ring<T>, a: T): (p: seq<T>)
    ensures |p| == |R.generator|
  {
    seq(|R.generator|, i requires 0 <= i < |R.generator| => R.mul(a, R.generator[i]))
  }

  /** The product of `q` and the generator, written with `|q| + 6` coefficients. */
  function TimesGenerator<T>(A: Algebra<T>, R: Ring<T>, q: seq<T>): (p: seq<T>)
    requires |R.generator| == 7
    ensures |p| == |q| + 6
  {
    if q == [] then Zeros(A, 6)
    else
      var n := |q| - 1;
      Add(A, TimesGenerator(A, R, q[..n]) + [A.zero], Zeros(A, n) + Scale(R, q[n]))
  }

  /** One step of long division: multiply the remainder `r` by x, bring down `u`, and take off `r[0]` times
      the generator. */
  function Divide<T>(A: Algebra<T>, R: Ring<T>, r: seq<T>, u: T): (s: seq<T>)
    requires |r| == 6 && |R.generator| == 7
    ensures |s| == 6
  {
    seq(6, i requires 0 <= i < 6 => A.add(if i < 5 then r[i + 1] else u, R.mul(r[0], R.generator[i + 1])))
  }

  ghost predicate Divides<T>(A: Algebra<T>, R: Ring<T>, c: T, u: T) {
    && |R.generator| == 7
    && (A.fits(c, 6) && A.symbol(u) ==>
          && Unpack(A, A.add(A.shift(c), u), 6) == Divide(A, R, Unpack(A, c, 6), u)
          && R.mul(Unpack(A, c, 6)[0], R.generator[0]) == Unpack(A, c, 6)[0])
  }

  ghost predicate Dividing<T(!new)>(A: Algebra<T>, R: Ring<T>) {
    |R.generator| == 7 && forall c, u :: Divides(A, R, c, u)
  }

  /** The leading coefficients met during the division of `[1] + v`. */
  function Quotient<T>(A: Algebra<T>, v: seq<T>): (q: seq<T>)
    ensures |q| == |v|
  {
    if v == [] then []
    else
      var n := |v| - 1;
      Quotient(A, v[..n]) + [Unpack(A, PolyMod(A, v[..n]), 6)[0]]
  }

  /** The seven coefficients in play during a step: those of `x * r + u` are those of `r[0]` times the
      generator and of the new remainder. */
  lemma StepIdentity<T(!new)>(A: Algebra<T>, R: Ring<T>, r: seq<T>, u: T)
    requires Group(A) && |r| == 6 && |R.generator| == 7 && R.mul(r[0], R.generator[0]) == r[0]
    ensures r + [u] == Add(A, Scale(R, r[0]), [A.zero] + Divide(A, R, r, u))
  {
    var s, t := Scale(R, r[0]), [A.zero] + Divide(A, R, r, u);
    forall i | 0 <= i < 7 ensures (r + [u])[i] == Add(A, s, t)[i] {
      if i == 0 {
        assert A.Cancels(r[0], r[0]);
      } else {
        var x := if i < 6 then r[i] else u;
        TakeOff(A, x, R.mul(r[0], R.generator[i]));
        assert t[i] == A.add(x, R.mul(r[0], R.generator[i]));
      }
    }
  }

  lemma TakeOff<T(!new)>(A: Algebra<T>, x: T, m: T)
    requires Group(A)
    ensures A.add(m, A.add(x, m)) == x
  {
    assert A.Cancels(m, m) && A.Cancels(x, x);
    assert A.Regroups(m, A.zero, x, m) && A.Regroups(A.zero, m, x, m) && A.Cancels(A.add(x, m), x);
    assert A.Regroups(A.zero, x, m, m);
  }

  lemma AddAppend<T>(A: Algebra<T>, a: seq<T>, b: seq<T>, c: seq<T>, d: seq<T>)
    requires |a| == |b| && |c| == |d|
    ensures Add(A, a + c, b + d) == Add(A, a, b) + Add(A, c, d)
  {
  }

  lemma AddRegroup<T(!new)>(A: Algebra<T>, a: seq<T>, b: seq<T>, c: seq<T>)
    requires Group(A) && |a| == |b| == |c|
    ensures Add(A, Add(A, a, b), c) == Add(A, a, Add(A, b, c))
  {
    forall i | 0 <= i < |a| ensures Add(A, Add(A, a, b), c)[i] == Add(A, a, Add(A, b, c))[i] {
      assert A.Regroups(a[i], b[i], A.zero, c[i]) && A.Cancels(c[i], c[i]) && A.Cancels(a[i], a[i]);
    }
  }

  lemma QuotientSnoc<T>(A: Algebra<T>, w: seq<T>, u: T)
    ensures Quotient(A, w + [u]) == Quotient(A, w) + [Unpack(A, PolyMod(A, w), 6)[0]]
    ensures PolyMod(A, w + [u]) == A.add(A.shift(PolyMod(A, w)), u)
  {
    assert (w + [u])[..|w|] == w;
  }

  lemma TimesSnoc<T>(A: Algebra<T>, R: Ring<T>, q: seq<T>, a: T)
    requires |R.generator| == 7
    ensures TimesGenerator(A, R, q + [a]) == Add(A, TimesGenerator(A, R, q) + [A.zero], Zeros(A, |q|) + Scale(R, a))
  {
    assert (q + [a])[..|q|] == q;
  }

  /** `[1] + v`, read as a polynomial, is the quotient times the generator and a remainder. */
  ghost predicate Divided<T>(A: Algebra<T>, R: Ring<T>, v: seq<T>)
    requires |R.generator| == 7
  {
    Zeros(A, 5) + [A.one] + v
    == Add(A, TimesGenerator(A, R, Quotient(A, v)), Zeros(A, |v|) + Unpack(A, PolyMod(A, v), 6))
  }

  lemma DivisionStep<T(!new)>(A: Algebra<T>, R: Ring<T>, w: seq<T>, u: T)
    requires Lawful(A) && Dividing(A, R) && Symbols(A, w) && A.symbol(u) && Divided(A, R, w)
    ensures Divided(A, R, w + [u])
  {
    var q, c := Quotient(A, w), PolyMod(A, w);
    var r := Unpack(A, c, 6);
    FoldFits(A, A.one, w);
    assert Divides(A, R, c, u);
    QuotientSnoc(A, w, u);
    TimesSnoc(A, R, q, r[0]);
    StepIdentity(A, R, r, u);
    var a := Zeros(A, 5) + [A.one] + w;
    BringDown(A, a, TimesGenerator(A, R, q), r, u, Scale(R, r[0]), Divide(A, R, r, u), |w|);
    assert Zeros(A, 5) + [A.one] + (w + [u]) == a + [u];
  }

  lemma DivisionBase<T(!new)>(A: Algebra<T>, R: Ring<T>)
    requires Group(A) && |R.generator| == 7 && Unpack(A, A.one, 6) == Zeros(A, 5) + [A.one]
    ensures Divided(A, R, [])
  {
    var a := Zeros(A, 5) + [A.one];
    AddZeros(A, a);
    assert a + [] == a && Zeros(A, 0) + a == a;
  }

  /** PolyMod is the remainder, of six coefficients, that long division by the generator leaves. */
  lemma {:induction false} PolyModIsRemainder<T(!new)>(A: Algebra<T>, R: Ring<T>, v: seq<T>)
    requires Lawful(A) && Dividing(A, R) && Symbols(A, v) && Unpack(A, A.one, 6) == Zeros(A, 5) + [A.one]
    ensures Divided(A, R, v)
  {
    if v == [] {
      DivisionBase(A, R);
    } else {
      var n := |v| - 1;
      PolyModIsRemainder(A, R, v[..n]);
      DivisionStep(A, R, v[..n], v[n]);
      assert v == v[..n] + [v[n]];
    }
  }

  lemma BringDown<T(!new)>(A: Algebra<T>, a: seq<T>, p: seq<T>, r: seq<T>, u: T, g: seq<T>, s: seq<T>, n: nat)
    requires Group(A) && |p| == n + 6 && |r| == |s| == 6 && |g| == 7
    requires a == Add(A, p, Zeros(A, n) + r) && r + [u] == Add(A, g, [A.zero] + s)
    ensures a + [u] == Add(A, Add(A, p + [A.zero], Zeros(A, n) + g), Zeros(A, n + 1) + s)
  {
    var t := [A.zero] + s;
    assert Zeros(A, n + 1) + s == Zeros(A, n) + t;
    AddRegroup(A, p + [A.zero], Zeros(A, n) + g, Zeros(A, n) + t);
    AddAppend(A, Zeros(A, n), Zeros(A, n), g, t);
    AddZeros(A, Zeros(A, n));
    assert Add(A, Zeros(A, n) + g, Zeros(A, n) + t) == Zeros(A, n) + (r + [u]);
    AddTail(A, p, Zeros(A, n) + r, u);
    assert Zeros(A, n) + r + [u] == Zeros(A, n) + (r + [u]);
  }

  lemma AddTail<T(!new)>(A: Algebra<T>, p: seq<T>, r: seq<T>, u: T)
    requires Group(A) && |p| == |r|
    ensures Add(A, p, r) + [u] == Add(A, p + [A.zero], r + [u])
  {
    assert A.Cancels(u, u);
  }
}

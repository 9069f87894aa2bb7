/** The conversion as the code runs it: an accumulator that takes in and hands out bits. */
module ConvertBitsImpl {
  import opened Common
  import opened ConvertBits

  // ---------------------------------------------------------------- division

  lemma MultipleLess(a: nat, m: nat, n: nat)
    requires m < n
    ensures a * m + a <= a * n
  {
    assert a * n == a * m + a * (n - m);
    assert a * (n - m) == a * (n - m - 1) + a;
  }

  lemma Unique(x: nat, a: nat, q: nat, r: nat)
    requires x == a * q + r && r < a
    ensures x / a == q && x % a == r
  {
    var k := x / a;
    assert x == a * k + x % a;
    if k < q { MultipleLess(a, k, q); }
    if q < k { MultipleLess(a, q, k); }
  }

  lemma Factor(a: nat, b: nat, k: nat, s: nat)
    ensures (a * b) * k + a * s == a * (b * k + s)
  {
  }

  lemma QuotientBelow(r: nat, a: nat, b: nat)
    requires a > 0 && r < a * b
    ensures r / a < b
  {
    assert r == a * (r / a) + r % a;
    if r / a > b { MultipleLess(a, b, r / a); }
  }

  /** The quotient by `a`, modulo `b`, and the remainder by `a` can be read off the remainder by `a * b`. */
  lemma Digits(x: nat, a: nat, b: nat)
    requires a > 0 && b > 0 && a * b > 0
    ensures (x / a) % b == (x % (a * b)) / a && (x % (a * b)) % a == x % a
  {
    var k, r := x / (a * b), x % (a * b);
    assert x == (a * b) * k + r;
    assert r == a * (r / a) + r % a;
    Factor(a, b, k, r / a);
    Unique(x, a, b * k + r / a, r % a);
    QuotientBelow(r, a, b);
    Unique(x / a, b, k, r / a);
  }

  lemma Product(x: nat, y: nat)
    requires x > 0 && y > 0
    ensures x * y > 0
  {
  }

  lemma {:induction false} Pow2Add(i: nat, j: nat)
    ensures Pow2(i + j) == Pow2(i) * Pow2(j)
  {
    if j > 0 {
      Pow2Add(i, j - 1);
      Double(Pow2(i), Pow2(j - 1));
    }
  }

  lemma Distribute(q: nat, p: nat, k: nat, m: nat)
    ensures (q * k + m) * p == (q * p) * k + m * p
  {
    assert (q * k) * p == (q * p) * k;
  }

  lemma BelowProduct(m: nat, q: nat, p: nat, v: nat)
    requires m < q && v < p
    ensures m * p + v < q * p
  {
    MultipleLess(p, m, q);
  }

  /** Appending low digits commutes with dropping high ones. */
  lemma ShiftIn(acc: nat, q: nat, p: nat, v: nat)
    requires q > 0 && v < p && q * p > 0
    ensures (acc * p + v) % (q * p) == (acc % q) * p + v
  {
    var k, m := acc / q, acc % q;
    assert acc == q * k + m;
    Distribute(q, p, k, m);
    BelowProduct(m, q, p, v);
    Unique(acc * p + v, q * p, k, m * p + v);
  }

  // ---------------------------------------------------------------- the accumulator

  /** The low bits of the accumulator are the bits taken in and not yet handed out. */
  ghost predicate Holds(acc: nat, pending: seq<bool>) {
    acc % Pow2(|pending|) == ToNat(pending)
  }

  lemma TakeIn(acc: nat, pending: seq<bool>, v: nat, from: nat, limit: nat)
    requires Holds(acc, pending) && v < Pow2(from) && |pending| + from <= limit
    ensures Holds((acc * Pow2(from) + v) % Pow2(limit), pending + BitsOf(v, from))
  {
    var x, n := acc * Pow2(from) + v, |pending|;
    Pow2Add(n + from, limit - (n + from));
    Digits(x, Pow2(n + from), Pow2(limit - (n + from)));
    Pow2Add(n, from);
    ShiftIn(acc, Pow2(n), Pow2(from), v);
    BitsRoundTrip(v, from);
    ToNatAppend(pending, BitsOf(v, from));
  }

  lemma OneGroup(out: seq<nat>, rest: seq<bool>, to: nat)
    requires 0 < to <= |rest|
    ensures out + [ToNat(rest[..to])] + Groups(rest[to..], to) == out + Groups(rest, to)
    ensures Rest(rest[to..], to) == Rest(rest, to)
  {
  }

  lemma HandOut(acc: nat, pending: seq<bool>, to: nat)
    requires Holds(acc, pending) && to <= |pending|
    ensures (acc / Pow2(|pending| - to)) % Pow2(to) == ToNat(pending[..to]) && Holds(acc, pending[to..])
  {
    var n := |pending| - to;
    var a, b := pending[..to], pending[to..];
    Pow2Add(n, to);
    Digits(acc, Pow2(n), Pow2(to));
    assert pending == a + b;
    ToNatAppend(a, b);
    NatRoundTrip(a);
    NatRoundTrip(b);
    Commute(ToNat(a), Pow2(n));
    Unique(ToNat(pending), Pow2(n), ToNat(a), ToNat(b));
  }

  lemma Commute(x: nat, y: nat)
    ensures x * y == y * x
  {
  }

  lemma {:induction false} ZerosAreZero(b: seq<bool>)
    ensures ToNat(b) == 0 <==> b == Zeros(|b|)
  {
    if b != [] {
      var n := |b| - 1;
      ZerosAreZero(b[..n]);
      assert b == b[..n] + [b[n]];
      assert Zeros(|b|)[..n] == Zeros(n);
    }
  }

  lemma FillUp(acc: nat, pending: seq<bool>, to: nat)
    requires Holds(acc, pending) && |pending| <= to
    ensures (acc * Pow2(to - |pending|)) % Pow2(to) == ToNat(pending + Zeros(to - |pending|))
    ensures (acc * Pow2(to - |pending|)) % Pow2(to) == 0 <==> pending == Zeros(|pending|)
  {
    var n, m := |pending|, to - |pending|;
    Pow2Add(n, m);
    ShiftIn(acc, Pow2(n), Pow2(m), 0);
    ToNatAppend(pending, Zeros(m));
    ZerosAreZero(Zeros(m));
    ZerosAreZero(pending);
    if ToNat(pending) > 0 { Product(ToNat(pending), Pow2(m)); }
  }

  // ---------------------------------------------------------------- grouping piece by piece

  lemma GroupsFilled(b: seq<bool>, p: seq<bool>, w: nat)
    requires w > 0 && |Rest(b, w)| + |p| == w
    ensures Groups(b + p, w) == Groups(b, w) + [ToNat(Rest(b, w) + p)]
  {
    GroupsAppend(b, p, w);
    var last := Rest(b, w) + p;
    assert last[..w] == last && last[w..] == [];
  }

  /** Hands out whole groups while there are any. */
  method Drain(acc: nat, bits: nat, to: nat, ghost pending: seq<bool>)
    returns (out: seq<nat>, left: nat, ghost rest: seq<bool>)
    requires to > 0 && bits == |pending| && Holds(acc, pending)
    ensures out == Groups(pending, to) && rest == Rest(pending, to) && left == |rest| && Holds(acc, rest)
  {
    out, left, rest := [], bits, pending;
    while left >= to
      invariant left == |rest| && Holds(acc, rest)
      invariant out + Groups(rest, to) == Groups(pending, to) && Rest(rest, to) == Rest(pending, to)
    {
      HandOut(acc, rest, to);
      OneGroup(out, rest, to);
      left := left - to;
      out := out + [(acc / Pow2(left)) % Pow2(to)];
      rest := rest[to..];
    }
  }

  /** Takes in one value and hands out what is full. */
  method Step(acc: nat, bits: nat, x: nat, from: nat, to: nat, ghost before: seq<bool>)
    returns (next: nat, out: seq<nat>, left: nat)
    requires to > 0 && x < Pow2(from) && bits == |Rest(before, to)| && Holds(acc, Rest(before, to))
    ensures var after := before + BitsOf(x, from);
            && Groups(before, to) + out == Groups(after, to)
            && left == |Rest(after, to)| && Holds(next, Rest(after, to))
  {
    TakeIn(acc, Rest(before, to), x, from, from + to - 1);
    next := (acc * Pow2(from) + x) % Pow2(from + to - 1);
    GroupsAppend(before, BitsOf(x, from), to);
    ghost var rest;
    out, left, rest := Drain(next, bits + from, to, Rest(before, to) + BitsOf(x, from));
  }

  /** What is done with the last bits. */
  method Finish(acc: nat, bits: nat, from: nat, to: nat, pad: bool, ghost b: seq<bool>)
    returns (out: seq<nat>, ok: bool)
    requires to > 0 && bits == |Rest(b, to)| && Holds(acc, Rest(b, to))
    ensures pad ==> ok && Groups(b, to) + out == Groups(b + Padding(b, to), to)
    ensures !pad ==> out == [] && (ok <==> bits < from && Rest(b, to) == Zeros(bits))
  {
    FillUp(acc, Rest(b, to), to);
    if pad {
      if bits != 0 {
        GroupsFilled(b, Zeros(to - bits), to);
        return [(acc * Pow2(to - bits)) % Pow2(to)], true;
      }
      assert b + [] == b;
    } else if bits >= from || (acc * Pow2(to - bits)) % Pow2(to) != 0 {
      return [], false;
    }
    return [], true;
  }

  method Convert(v: seq<nat>, from: nat, to: nat, pad: bool) returns (out: seq<nat>, ok: bool)
    requires from > 0 && to > 0 && Below(v, from)
    ensures (out, ok) == ConvertBits.Convert(v, from, to, pad)
  {
    var acc: nat, bits: nat := 0, 0;
    out := [];
    for i := 0 to |v|
      invariant bits == |Rest(AllBits(v[..i], from), to)| && Holds(acc, Rest(AllBits(v[..i], from), to))
      invariant out == Groups(AllBits(v[..i], from), to)
    {
      assert v[..i + 1][..i] == v[..i];
      var more;
      acc, more, bits := Step(acc, bits, v[i], from, to, AllBits(v[..i], from));
      out := out + more;
    }
    assert v[..|v|] == v;
    var more;
    more, ok := Finish(acc, bits, from, to, pad, AllBits(v, from));
    assert out + [] == out;
    out := out + more;
  }
}

/** Regrouping a bit string: bytes to 5-bit symbols and back. */
module ConvertBits {
  import opened Common

  // ---------------------------------------------------------------- numbers as bits, highest first

  function ToNat(b: seq<bool>): nat {
    if b == [] then 0 else 2 * ToNat(b[..|b| - 1]) + if b[|b| - 1] then 1 else 0
  }

  function BitsOf(n: nat, w: nat): (b: seq<bool>)
    ensures |b| == w
  {
    if w == 0 then [] else BitsOf(n / 2, w - 1) + [n % 2 == 1]
  }

  lemma {:induction false} BitsRoundTrip(n: nat, w: nat)
    requires n < Pow2(w)
    ensures ToNat(BitsOf(n, w)) == n
  {
    if w > 0 {
      BitsRoundTrip(n / 2, w - 1);
      assert BitsOf(n, w)[..w - 1] == BitsOf(n / 2, w - 1);
    }
  }

  lemma {:induction false} NatRoundTrip(b: seq<bool>)
    ensures ToNat(b) < Pow2(|b|) && BitsOf(ToNat(b), |b|) == b
  {
    if b != [] {
      var init := b[..|b| - 1];
      NatRoundTrip(init);
      assert ToNat(b) / 2 == ToNat(init);
      assert b == init + [b[|b| - 1]];
    }
  }

  lemma Double(x: nat, p: nat)
    ensures 2 * (x * p) == x * (2 * p)
  {
  }

  lemma {:induction false} ToNatAppend(a: seq<bool>, b: seq<bool>)
    ensures ToNat(a + b) == ToNat(a) * Pow2(|b|) + ToNat(b)
    decreases |b|
  {
    if b == [] {
      assert a + b == a;
    } else {
      var n := |b| - 1;
      ToNatAppend(a, b[..n]);
      assert (a + b)[..|a + b| - 1] == a + b[..n];
      Double(ToNat(a), Pow2(n));
    }
  }

  // ---------------------------------------------------------------- grouping

  /** The bits of a list of `w`-bit values. */
  function AllBits(v: seq<nat>, w: nat): seq<bool> {
    if v == [] then [] else AllBits(v[..|v| - 1], w) + BitsOf(v[|v| - 1], w)
  }

  /** The whole groups of `w` bits of a bit string, as numbers. */
  function Groups(b: seq<bool>, w: nat): seq<nat>
    requires w > 0
  {
    if |b| < w then [] else [ToNat(b[..w])] + Groups(b[w..], w)
  }

  /** The bits that do not fill a group. */
  function Rest(b: seq<bool>, w: nat): (r: seq<bool>)
    requires w > 0
    ensures |r| < w
  {
    if |b| < w then b else Rest(b[w..], w)
  }

  /** The bits that do. */
  function Whole(b: seq<bool>, w: nat): seq<bool>
    requires w > 0
  {
    if |b| < w then [] else b[..w] + Whole(b[w..], w)
  }

  lemma {:induction false} WholeAndRest(b: seq<bool>, w: nat)
    requires w > 0
    ensures b == Whole(b, w) + Rest(b, w)
  {
    if |b| >= w {
      WholeAndRest(b[w..], w);
      assert b == b[..w] + b[w..];
    }
  }

  predicate Below(v: seq<nat>, w: nat) {
    forall i | 0 <= i < |v| :: v[i] < Pow2(w)
  }

  lemma {:induction false} AllBitsAppend(u: seq<nat>, v: seq<nat>, w: nat)
    ensures AllBits(u + v, w) == AllBits(u, w) + AllBits(v, w)
    decreases |v|
  {
    if v == [] {
      assert u + v == u;
    } else {
      var n := |v| - 1;
      AllBitsAppend(u, v[..n], w);
      assert (u + v)[..|u + v| - 1] == u + v[..n] && (u + v)[|u + v| - 1] == v[n];
      var last := BitsOf(v[n], w);
      assert AllBits(u, w) + AllBits(v[..n], w) + last == AllBits(u, w) + (AllBits(v[..n], w) + last);
    }
  }

  lemma AllBitsCons(n: nat, v: seq<nat>, w: nat)
    ensures AllBits([n] + v, w) == BitsOf(n, w) + AllBits(v, w)
  {
    AllBitsAppend([n], v, w);
    assert [n][..0] == [];
    assert AllBits([], w) + BitsOf(n, w) == BitsOf(n, w);
  }

  /** Grouping loses only the rest. */
  lemma {:induction false} BitsOfGroups(b: seq<bool>, w: nat)
    requires w > 0
    ensures AllBits(Groups(b, w), w) == Whole(b, w) && Below(Groups(b, w), w)
  {
    if |b| >= w {
      BitsOfGroups(b[w..], w);
      NatRoundTrip(b[..w]);
      AllBitsCons(ToNat(b[..w]), Groups(b[w..], w), w);
    }
  }

  lemma GroupsStep(a: seq<bool>, b: seq<bool>, w: nat)
    requires |a| == w > 0
    ensures Groups(a + b, w) == [ToNat(a)] + Groups(b, w) && Rest(a + b, w) == Rest(b, w)
    ensures Whole(a + b, w) == a + Whole(b, w)
  {
    assert (a + b)[..w] == a && (a + b)[w..] == b;
  }

  /** Grouping piece by piece. */
  lemma {:induction false} GroupsAppend(b: seq<bool>, c: seq<bool>, w: nat)
    requires w > 0
    ensures Groups(b + c, w) == Groups(b, w) + Groups(Rest(b, w) + c, w)
    ensures Rest(b + c, w) == Rest(Rest(b, w) + c, w)
    decreases |b|
  {
    if |b| >= w {
      GroupsAppend(b[w..], c, w);
      assert b + c == b[..w] + (b[w..] + c);
      GroupsStep(b[..w], b[w..] + c, w);
    }
  }

  lemma FirstGroup(c: seq<bool>, w: nat, rest: seq<bool>)
    requires |rest| < w == |c|
    ensures Groups(c + rest, w) == [ToNat(c)] && Rest(c + rest, w) == rest
  {
    GroupsStep(c, rest, w);
  }

  lemma OneMore(b: seq<bool>, c: seq<bool>, w: nat, rest: seq<bool>)
    requires |rest| < w == |c| && Rest(b, w) == []
    ensures Groups(b + c + rest, w) == Groups(b, w) + [ToNat(c)] && Rest(b + c + rest, w) == rest
  {
    var d := c + rest;
    FirstGroup(c, w, rest);
    GroupsAppend(b, d, w);
    assert [] + d == d;
    assert b + c + rest == b + d;
  }

  lemma GroupsSnoc(b: seq<bool>, x: nat, w: nat)
    requires x < Pow2(w) && w > 0 && Rest(b, w) == []
    ensures Groups(b + BitsOf(x, w), w) == Groups(b, w) + [x] && Rest(b + BitsOf(x, w), w) == []
  {
    var c := BitsOf(x, w);
    BitsRoundTrip(x, w);
    OneMore(b, c, w, []);
    assert b + c + [] == b + c;
  }

  /** The bits of a list of values group into the values, with nothing left over. */
  lemma {:induction false} GroupsOfBits(v: seq<nat>, w: nat)
    requires Below(v, w) && w > 0
    ensures Groups(AllBits(v, w), w) == v && Rest(AllBits(v, w), w) == []
  {
    if v != [] {
      var n := |v| - 1;
      GroupsOfBits(v[..n], w);
      GroupsSnoc(AllBits(v[..n], w), v[n], w);
      assert v == v[..n] + [v[n]];
    }
  }

  lemma ShortRest(b: seq<bool>, rest: seq<bool>, w: nat)
    requires |rest| < w && Rest(b, w) == []
    ensures Groups(b + rest, w) == Groups(b, w) && Rest(b + rest, w) == rest
  {
    GroupsAppend(b, rest, w);
    assert [] + rest == rest;
    assert Groups(rest, w) == [];
  }

  /** A short rest is dropped. */
  lemma GroupsOfBitsAndRest(v: seq<nat>, w: nat, rest: seq<bool>)
    requires Below(v, w) && |rest| < w
    ensures Groups(AllBits(v, w) + rest, w) == v && Rest(AllBits(v, w) + rest, w) == rest
  {
    GroupsOfBits(v, w);
    ShortRest(AllBits(v, w), rest, w);
  }

  // ---------------------------------------------------------------- conversion

  function Zeros(n: nat): seq<bool> { seq(n, _ => false) }

  /** Zeros that fill up the last group. */
  function Padding(b: seq<bool>, w: nat): seq<bool>
    requires w > 0
  {
    if Rest(b, w) == [] then [] else Zeros(w - |Rest(b, w)|)
  }

  function Convert(v: seq<nat>, from: nat, to: nat, pad: bool): (r: (seq<nat>, bool))
    requires from > 0 && to > 0
  {
    var b := AllBits(v, from);
    if pad then (Groups(b + Padding(b, to), to), true)
    else (Groups(b, to), |Rest(b, to)| < from && Rest(b, to) == Zeros(|Rest(b, to)|))
  }

  lemma {:induction false} RestFilled(b: seq<bool>, p: seq<bool>, w: nat)
    requires w > 0 && |Rest(b, w)| + |p| == w
    ensures Rest(b + p, w) == []
    decreases |b|
  {
    if |b| < w {
      assert (b + p)[w..] == [];
    } else {
      RestFilled(b[w..], p, w);
      assert b + p == b[..w] + (b[w..] + p);
      GroupsStep(b[..w], b[w..] + p, w);
    }
  }

  lemma PaddingFills(b: seq<bool>, w: nat)
    requires w > 0
    ensures var p := Padding(b, w);
            |p| < w && p == Zeros(|p|) && AllBits(Groups(b + p, w), w) == b + p && Below(Groups(b + p, w), w)
  {
    var p := Padding(b, w);
    BitsOfGroups(b + p, w);
    if Rest(b, w) == [] {
      assert b + p == b;
    } else {
      RestFilled(b, p, w);
    }
    WholeAndRest(b + p, w);
    assert Whole(b + p, w) + [] == Whole(b + p, w);
  }

  /** Widening undoes narrowing with padding, on every list of values. */
  lemma WideningUndoes(v: seq<nat>, wide: nat, narrow: nat)
    requires 0 < narrow <= wide && Below(v, wide)
    ensures Convert(Convert(v, wide, narrow, true).0, narrow, wide, false) == (v, true)
  {
    var b := AllBits(v, wide);
    PaddingFills(b, narrow);
    GroupsOfBitsAndRest(v, wide, Padding(b, narrow));
  }

  /** From bytes to symbols and back again, without loss: 5-to-8 undoes 8-to-5, on every byte string. */
  lemma BytesRoundTrip(v: seq<nat>)
    requires Below(v, 8)
    ensures Convert(Convert(v, 8, 5, true).0, 5, 8, false) == (v, true)
  {
    WideningUndoes(v, 8, 5);
  }

  lemma {:induction false} FiveLength(v: seq<nat>)
    ensures |AllBits(v, 5)| % 5 == 0
  {
    if v != [] { FiveLength(v[..|v| - 1]); }
  }

  lemma FillsAlike(m: nat, x: nat, y: nat)
    requires x < 5 && y < 5 && (m + x) % 5 == 0 && (m + y) % 5 == 0
    ensures x == y
  {
  }

  /** Two ways to fill up to a multiple of five bits with zeros are the same way. */
  lemma SameFilling(c: seq<bool>, rest: seq<bool>, p: seq<bool>)
    requires |rest| < 5 && |p| < 5 && rest == Zeros(|rest|) && p == Zeros(|p|)
    requires |c + rest| % 5 == 0 && |c + p| % 5 == 0
    ensures rest == p
  {
    FillsAlike(|c|, |rest|, |p|);
  }

  /** Which symbol strings are accepted: exactly the padded encodings of the bytes they yield. */
  lemma AcceptsEncodings(s: seq<nat>)
    requires Below(s, 5)
    ensures var (out, ok) := Convert(s, 5, 8, false);
            ok <==> s == Convert(out, 8, 5, true).0
  {
    var b := AllBits(s, 5);
    var (out, ok) := Convert(s, 5, 8, false);
    var rest := Rest(b, 8);
    BitsOfGroups(b, 8);
    WholeAndRest(b, 8);
    var c := AllBits(out, 8);
    assert b == c + rest;
    PaddingFills(c, 5);
    var p := Padding(c, 5);
    var t := Groups(c + p, 5);
    FiveLength(s);
    FiveLength(t);
    if ok {
      SameFilling(c, rest, p);
      GroupsOfBits(s, 5);
    }
    if s == t {
      assert rest == (c + rest)[|c|..] && p == (c + p)[|c|..];
    }
  }
}

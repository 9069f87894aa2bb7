/** The field of 1024 elements: polynomials over GF(2) in `e` modulo e^10 + e^8 + e^5 + e + 1, one bit per
    coefficient. The powers of `e` are the 1023 elements that are not zero. */
module Gf1024 {
  import opened Checksum
  import opened Evaluation

  function Sum(x: bv10, y: bv10): bv10 { x ^ y }

  /** Multiplication by `e`. */
  function Next(x: bv10): bv10 { (x << 1) ^ (0x123 & (0 - (x >> 9))) }

  /** Only addition and multiplication by `e` matter; every element counts as a symbol. */
  const GF1024: Algebra<bv10> := Algebra(0, 1, Sum, Next, _ => true, (_, _) => true, x => x, x => x)

  lemma SumRegroups(a: bv10, b: bv10, c: bv10, d: bv10)
    ensures Sum(Sum(a, b), Sum(c, d)) == Sum(Sum(a, c), Sum(b, d))
  {
    calc {
      Sum(Sum(a, b), Sum(c, d));
      (a ^ b) ^ (c ^ d);
      (a ^ c) ^ (b ^ d);
      Sum(Sum(a, c), Sum(b, d));
    }
  }

  lemma SumCancels(a: bv10, b: bv10)
    ensures Sum(a, 0) == a && Sum(0, a) == a && Sum(a, a) == 0 && (Sum(a, b) == 0 ==> a == b)
  {
  }

  lemma NextBits(a: bv10, b: bv10)
    ensures Next(a ^ b) == Next(a) ^ Next(b)
  {
  }

  lemma NextSum(a: bv10, b: bv10)
    ensures Next(Sum(a, b)) == Sum(Next(a), Next(b))
  {
    NextBits(a, b);
  }

  lemma RegroupsAll()
    ensures forall a, b, c, d :: GF1024.Regroups(a, b, c, d)
  {
    forall a, b, c, d ensures GF1024.Regroups(a, b, c, d) { SumRegroups(a, b, c, d); }
  }

  lemma CancelsAll()
    ensures forall a, b :: GF1024.Cancels(a, b)
  {
    forall a, b ensures GF1024.Cancels(a, b) { SumCancels(a, b); }
  }

  lemma DistributesAll()
    ensures forall a, b :: GF1024.Distributes(a, b)
  {
    forall a, b ensures GF1024.Distributes(a, b) { NextSum(a, b); }
  }

  lemma FieldGroup()
    ensures Group(GF1024)
  {
    RegroupsAll();
    CancelsAll();
    DistributesAll();
  }

  // ---------------------------------------------------------------- powers of e

  /** `c` if the last bit of `x` is set. */
  function Bit(c: bv10, x: bv10): bv10 { c & (0 - (x & 1)) }

  function Mix<T>(next: T -> T, add: (T, T) -> T, bit: (T, T) -> T, x: T, x1: T, x2: T, x3: T, x4: T, c: T): T {
    var c1 := next(c);
    var c2 := next(c1);
    var c3 := next(c2);
    add(add(add(bit(c, x), bit(c1, x1)), add(bit(c2, x2), bit(c3, x3))), bit(next(c3), x4))
  }

  function NextFive(c: bv10): bv10 { Next(Next(Next(Next(Next(c))))) }

  function Half(x: bv10, c: bv10): bv10 {
    var c1 := Next(c);
    var c2 := Next(c1);
    var c3 := Next(c2);
    Sum(Sum(Sum(Bit(c, x), Bit(c1, x >> 1)), Sum(Bit(c2, x >> 2), Bit(c3, x >> 3))), Bit(Next(c3), x >> 4))
  }

  /** The product of two elements. */
  function Times(x: bv10, c: bv10): bv10 { Sum(Half(x, c), Half(x >> 5, NextFive(c))) }

  lemma HalfIs(x: bv10, c: bv10)
    ensures Half(x, c) == Mix(Next, Sum, Bit, x, x >> 1, x >> 2, x >> 3, x >> 4, c)
  {
  }

  ghost predicate Through<T>(next: T -> T, add: (T, T) -> T, bit: (T, T) -> T, a: T, b: T) {
    next(add(a, b)) == add(next(a), next(b)) && next(bit(a, b)) == bit(next(a), b)
  }

  lemma MixNext<T(!new)>(next: T -> T, add: (T, T) -> T, bit: (T, T) -> T, x: T, x1: T, x2: T, x3: T, x4: T, c: T)
    requires forall a, b :: Through(next, add, bit, a, b)
    ensures next(Mix(next, add, bit, x, x1, x2, x3, x4, c)) == Mix(next, add, bit, x, x1, x2, x3, x4, next(c))
  {
    var c1 := next(c);
    var c2 := next(c1);
    var c3 := next(c2);
    assert Through(next, add, bit, c, x) && Through(next, add, bit, c1, x1) && Through(next, add, bit, c2, x2);
    assert Through(next, add, bit, c3, x3) && Through(next, add, bit, next(c3), x4);
    var p, q := add(bit(c, x), bit(c1, x1)), add(bit(c2, x2), bit(c3, x3));
    assert Through(next, add, bit, bit(c, x), bit(c1, x1)) && Through(next, add, bit, bit(c2, x2), bit(c3, x3));
    assert Through(next, add, bit, p, q) && Through(next, add, bit, add(p, q), bit(next(c3), x4));
  }

  lemma NextBit(c: bv10, x: bv10)
    ensures Next(Bit(c, x)) == Bit(Next(c), x)
  {
  }

  lemma NextThrough()
    ensures forall a, b :: Through(Next, Sum, Bit, a, b)
  {
    forall a, b ensures Through(Next, Sum, Bit, a, b) {
      NextSum(a, b);
      NextBit(a, b);
    }
  }

  lemma HalfNext(x: bv10, c: bv10)
    ensures Next(Half(x, c)) == Half(x, Next(c))
  {
    HalfIs(x, c);
    HalfIs(x, Next(c));
    NextThrough();
    MixNext(Next, Sum, Bit, x, x >> 1, x >> 2, x >> 3, x >> 4, c);
  }

  lemma TimesNext(x: bv10, c: bv10)
    ensures Next(Times(x, c)) == Times(x, Next(c))
  {
    HalfNext(x, c);
    HalfNext(x >> 5, NextFive(c));
    NextSum(Half(x, c), Half(x >> 5, NextFive(c)));
  }

  lemma TimesOne(x: bv10)
    ensures Times(x, 1) == x
  {
  }

  /** `e^n` times an element is its product with the element that `e^n` is. */
  lemma {:induction false} PowerIs(n: nat, x: bv10)
    ensures Power(Next, n, x) == Times(x, Power(Next, n, 1))
  {
    if n == 0 {
      TimesOne(x);
    } else {
      PowerIs(n - 1, x);
      TimesNext(x, Power(Next, n - 1, 1));
    }
  }

  /** `c` is `e^n`. */
  ghost predicate IsPower(n: nat, c: bv10) { Power(Next, n, 1) == c }

  lemma PowerPlus(m: nat, n: nat, c: bv10, d: bv10)
    requires IsPower(m, c) && IsPower(n, d)
    ensures IsPower(m + n, Times(d, c))
  {
    PowerAdd(Next, m, n, 1);
    PowerIs(m, d);
  }

  lemma PowersUpTo16()
    ensures IsPower(1, 0x2) && IsPower(4, 0x10) && IsPower(8, 0x100) && IsPower(16, 0x119)
  {
    PowerPlus(4, 4, 0x10, 0x10);
    PowerPlus(8, 8, 0x100, 0x100);
  }

  lemma PowersUpTo256()
    ensures IsPower(32, 0x58) && IsPower(64, 0xef) && IsPower(256, 0x1e5)
  {
    PowersUpTo16();
    PowerPlus(16, 16, 0x119, 0x119);
    PowerPlus(32, 32, 0x58, 0x58);
    PowerPlus(64, 64, 0xef, 0xef);
    PowerPlus(128, 128, 0x346, 0x346);
  }

  // 33 = 32 + 1, 93 = 64 + 16 + 8 + 4 + 1, 341 = 256 + 64 + 16 + 4 + 1
  lemma Cofactors()
    ensures IsPower(33, 0xb0) && IsPower(93, 0x36a) && IsPower(341, 0x36)
  {
    PowersUpTo16();
    PowersUpTo256();
    PowerPlus(32, 1, 0x58, 0x2);
    PowerPlus(4, 1, 0x10, 0x2);
    PowerPlus(64, 16, 0xef, 0x119);
    PowerPlus(80, 5, Times(0x119, 0xef), 0x20);
    PowerPlus(85, 8, Times(0x20, Times(0x119, 0xef)), 0x100);
    PowerPlus(256, 85, 0x1e5, Times(0x20, Times(0x119, 0xef)));
  }

  /** The powers of `e` come round after 1023 steps. */
  lemma FullTurn(x: bv10)
    ensures Fixes(1023, x)
  {
    Cofactors();
    PowerPlus(341, 341, 0x36, 0x36);
    PowerPlus(682, 341, Times(0x36, 0x36), 0x36);
    PowerIs(1023, x);
    TimesOne(x);
  }

  // ---------------------------------------------------------------- and no sooner

  ghost predicate Fixes(n: nat, x: bv10) { Power(Next, n, x) == x }

  lemma Moved33(x: bv10)
    requires Times(x, 0xb0) == x
    ensures x == 0
  {
  }

  lemma Moved93(x: bv10)
    requires Times(x, 0x36a) == x
    ensures x == 0
  {
  }

  lemma Moved341(x: bv10)
    requires Times(x, 0x36) == x
    ensures x == 0
  {
  }

  lemma CofactorsMove(x: bv10)
    requires Fixes(33, x) || Fixes(93, x) || Fixes(341, x)
    ensures x == 0
  {
    Cofactors();
    PowerIs(33, x);
    PowerIs(93, x);
    PowerIs(341, x);
    if Fixes(33, x) { Moved33(x); } else if Fixes(93, x) { Moved93(x); } else { Moved341(x); }
  }

  lemma FixesDifference(m: nat, n: nat, x: bv10)
    requires Fixes(m, x) && Fixes(n, x) && n <= m
    ensures Fixes(m - n, x)
  {
    PowerAdd(Next, m - n, n, x);
  }

  lemma {:induction false} FixesMultiple(d: nat, r: nat, x: bv10)
    requires Fixes(d, x)
    ensures Fixes(d * r, x)
  {
    if r == 0 {
      assert d * r == 0;
    } else {
      FixesMultiple(d, r - 1, x);
      PowerAdd(Next, d, d * (r - 1), x);
      assert d * r == d + d * (r - 1);
    }
  }

  /** Euclid's algorithm, by subtraction. */
  lemma {:induction false} FixesCommon(m: nat, n: nat, x: bv10) returns (d: nat, a: nat, b: nat)
    requires 0 < m && 0 < n && Fixes(m, x) && Fixes(n, x)
    ensures Fixes(d, x) && m == d * a && n == d * b
    decreases m + n
  {
    if m == n {
      d, a, b := m, 1, 1;
    } else if m > n {
      FixesDifference(m, n, x);
      d, a, b := FixesCommon(m - n, n, x);
      assert d * (a + b) == d * a + d * b;
      a := a + b;
    } else {
      FixesDifference(n, m, x);
      d, a, b := FixesCommon(m, n - m, x);
      assert d * (a + b) == d * a + d * b;
      b := a + b;
    }
  }

  lemma SmallFactor(c: nat, q: nat)
    requires c * q == 1023 && c <= 31
    ensures (c, q) in {(1, 1023), (3, 341), (11, 93), (31, 33)}
  {
    assert c in {0, 1, 2, 3, 4, 5, 6, 7, 8, 9, 10, 11, 12, 13, 14, 15} ||
           c in {16, 17, 18, 19, 20, 21, 22, 23, 24, 25, 26, 27, 28, 29, 30, 31};
  }

  /** 1023 is 3 times 11 times 31: a proper divisor divides one of the three cofactors. */
  lemma Factor(d: nat, a: nat) returns (r: nat)
    requires d * a == 1023 && a > 1
    ensures d * r in {33, 93, 341}
  {
    if d <= 31 {
      SmallFactor(d, a);
      r := if d == 3 then 31 else if d == 11 then 3 else if d == 31 then 3 else 33;
    } else {
      if a > 31 { LargeFactors(d, a); }
      SmallFactor(a, d);
      r := 1;
    }
  }

  lemma LargeFactors(d: nat, a: nat)
    requires d > 31 && a > 31
    ensures d * a > 1023
  {
  }

  lemma ProperFactor(d: nat, a: nat, b: nat)
    requires d * a == 1023 && 0 < d * b < 1023
    ensures a > 1
  {
  }

  /** Only zero is taken to itself in less than 1023 steps. */
  lemma Turn(n: nat, x: bv10)
    requires 0 < n < 1023 && Fixes(n, x)
    ensures x == 0
  {
    FullTurn(x);
    var d, a, b := FixesCommon(1023, n, x);
    ProperFactor(d, a, b);
    var r := Factor(d, a);
    FixesMultiple(d, r, x);
    CofactorsMove(x);
  }

  lemma NextNonzero(x: bv10)
    ensures Next(x) == 0 ==> x == 0
  {
  }

  lemma FieldFaithful()
    ensures Faithful(GF1024, 1023)
  {
    FieldGroup();
    forall x ensures Nonzero(GF1024, x) { NextNonzero(x); }
    forall n: nat, x ensures Turns(GF1024, 1023, n, x) {
      if 0 < n < 1023 && Power(GF1024.shift, n, x) == x { Turn(n, x); }
    }
  }
}

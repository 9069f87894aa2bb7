/** The field of 32 elements: polynomials over GF(2) modulo a^5 + a^3 + 1, one bit per coefficient. */
module Gf32 {
  import opened Checksum
  import opened Register
  import opened Remainder

  /** Multiplication by a; a^5 is a^3 + 1. */
  function Twice(x: bv32): bv32 { ((x << 1) & 31) ^ (9 & (0 - ((x >> 4) & 1))) }

  function Times(x: bv32, y: bv32): bv32 {
    (y & (0 - (x & 1))) ^ (Twice(y) & (0 - ((x >> 1) & 1))) ^ (Twice(Twice(y)) & (0 - ((x >> 2) & 1))) ^
    (Twice(Twice(Twice(y))) & (0 - ((x >> 3) & 1))) ^ (Twice(Twice(Twice(Twice(y)))) & (0 - ((x >> 4) & 1)))
  }

  /** x^6 + {29}x^5 + {22}x^4 + {20}x^3 + {21}x^2 + {29}x + {18} */
  const GENERATOR: seq<bv32> := [1, 29, 22, 20, 21, 29, 18]

  const RING := Ring(Times, GENERATOR)

  // ---------------------------------------------------------------- the coefficients of a register

  function Coefficients(c: bv32): (r: seq<bv32>)
    ensures |r| == 6
  {
    [(c >> 25) & 31, (c >> 20) & 31, (c >> 15) & 31, (c >> 10) & 31, (c >> 5) & 31, c & 31]
  }

  lemma Bits0(c: bv32, u: bv32)
    requires c < 0x4000_0000 && u < 32
    ensures ((Shift(c) ^ u) >> 25) & 31 == ((c >> 20) & 31) ^ Times((c >> 25) & 31, 29)
  {
  }

  lemma Step0(c: bv32, u: bv32, r: seq<bv32>, s: seq<bv32>)
    requires c < 0x4000_0000 && u < 32 && r == Coefficients(c) && s == Coefficients(Shift(c) ^ u)
    ensures s[0] == BECH32.add(r[1], Times(r[0], 29))
  {
    Bits0(c, u);
  }

  lemma Bits1(c: bv32, u: bv32)
    requires c < 0x4000_0000 && u < 32
    ensures ((Shift(c) ^ u) >> 20) & 31 == ((c >> 15) & 31) ^ Times((c >> 25) & 31, 22)
  {
  }

  lemma Step1(c: bv32, u: bv32, r: seq<bv32>, s: seq<bv32>)
    requires c < 0x4000_0000 && u < 32 && r == Coefficients(c) && s == Coefficients(Shift(c) ^ u)
    ensures s[1] == BECH32.add(r[2], Times(r[0], 22))
  {
    Bits1(c, u);
  }

  lemma Bits2(c: bv32, u: bv32)
    requires c < 0x4000_0000 && u < 32
    ensures ((Shift(c) ^ u) >> 15) & 31 == ((c >> 10) & 31) ^ Times((c >> 25) & 31, 20)
  {
  }

  lemma Step2(c: bv32, u: bv32, r: seq<bv32>, s: seq<bv32>)
    requires c < 0x4000_0000 && u < 32 && r == Coefficients(c) && s == Coefficients(Shift(c) ^ u)
    ensures s[2] == BECH32.add(r[3], Times(r[0], 20))
  {
    Bits2(c, u);
  }

  lemma Bits3(c: bv32, u: bv32)
    requires c < 0x4000_0000 && u < 32
    ensures ((Shift(c) ^ u) >> 10) & 31 == ((c >> 5) & 31) ^ Times((c >> 25) & 31, 21)
  {
  }

  lemma Step3(c: bv32, u: bv32, r: seq<bv32>, s: seq<bv32>)
    requires c < 0x4000_0000 && u < 32 && r == Coefficients(c) && s == Coefficients(Shift(c) ^ u)
    ensures s[3] == BECH32.add(r[4], Times(r[0], 21))
  {
    Bits3(c, u);
  }

  lemma Bits4(c: bv32, u: bv32)
    requires c < 0x4000_0000 && u < 32
    ensures ((Shift(c) ^ u) >> 5) & 31 == (c & 31) ^ Times((c >> 25) & 31, 29)
  {
  }

  lemma Step4(c: bv32, u: bv32, r: seq<bv32>, s: seq<bv32>)
    requires c < 0x4000_0000 && u < 32 && r == Coefficients(c) && s == Coefficients(Shift(c) ^ u)
    ensures s[4] == BECH32.add(r[5], Times(r[0], 29))
  {
    Bits4(c, u);
  }

  lemma Bits5(c: bv32, u: bv32)
    requires c < 0x4000_0000 && u < 32
    ensures (Shift(c) ^ u) & 31 == u ^ Times((c >> 25) & 31, 18)
  {
  }

  lemma Step5(c: bv32, u: bv32, r: seq<bv32>, s: seq<bv32>)
    requires c < 0x4000_0000 && u < 32 && r == Coefficients(c) && s == Coefficients(Shift(c) ^ u)
    ensures s[5] == BECH32.add(u, Times(r[0], 18))
  {
    Bits5(c, u);
  }

  lemma TimesOne(x: bv32)
    requires x < 32
    ensures Times(x, 1) == x
  {
  }

  lemma Highs(c: bv32)
    ensures High(c) == c >> 5 && High(c >> 5) == c >> 10 && High(c >> 10) == c >> 15
    ensures High(c >> 15) == c >> 20 && High(c >> 20) == c >> 25
  {
  }

  lemma UnpackMore<T>(A: Algebra<T>, m: T, k: nat)
    ensures Unpack(A, m, k + 1) == Unpack(A, A.high(m), k) + [A.low(m)]
  {
  }

  lemma UnpackSix<T>(A: Algebra<T>, a: T, b: T, c: T, d: T, e: T, f: T)
    requires A.high(f) == e && A.high(e) == d && A.high(d) == c && A.high(c) == b && A.high(b) == a
    ensures Unpack(A, f, 6) == [A.low(a), A.low(b), A.low(c), A.low(d), A.low(e), A.low(f)]
  {
    UnpackMore(A, f, 5);
    UnpackMore(A, e, 4);
    UnpackMore(A, d, 3);
    UnpackMore(A, c, 2);
    UnpackMore(A, b, 1);
    UnpackMore(A, a, 0);
  }

  lemma UnpackIs(c: bv32)
    ensures Unpack(BECH32, c, 6) == Coefficients(c)
  {
    Highs(c);
    UnpackSix(BECH32, c >> 25, c >> 20, c >> 15, c >> 10, c >> 5, c);
  }

  lemma DivideIs(A: Algebra<bv32>, mul: (bv32, bv32) -> bv32, r: seq<bv32>, u: bv32, s: seq<bv32>)
    requires |r| == |s| == 6
    requires s[0] == A.add(r[1], mul(r[0], 29)) && s[1] == A.add(r[2], mul(r[0], 22))
    requires s[2] == A.add(r[3], mul(r[0], 20))
    requires s[3] == A.add(r[4], mul(r[0], 21)) && s[4] == A.add(r[5], mul(r[0], 29)) && s[5] == A.add(u, mul(r[0], 18))
    ensures s == Divide(A, Ring(mul, GENERATOR), r, u)
  {
  }

  lemma CoefficientsStep(c: bv32, u: bv32, r: seq<bv32>, s: seq<bv32>)
    requires c < 0x4000_0000 && u < 32 && r == Coefficients(c) && s == Coefficients(Shift(c) ^ u)
    ensures s == Divide(BECH32, RING, r, u)
  {
    Step0(c, u, r, s);
    Step1(c, u, r, s);
    Step2(c, u, r, s);
    Step3(c, u, r, s);
    Step4(c, u, r, s);
    Step5(c, u, r, s);
    DivideIs(BECH32, Times, r, u, s);
  }

  lemma TopSymbol(c: bv32)
    ensures (c >> 25) & 31 < 32
  {
  }

  lemma RegisterDivides(c: bv32, u: bv32)
    ensures Divides(BECH32, RING, c, u)
  {
    if Fits(c, 6) && IsSymbol(u) {
      UnpackIs(c);
      UnpackIs(Xor(Shift(c), u));
      ShiftIs(c);
      CoefficientsStep(c, u, Coefficients(c), Coefficients(Shift(c) ^ u));
      TopSymbol(c);
      TimesOne((c >> 25) & 31);
    }
  }

  /** For every list of symbols, the checksum register holds the remainder of the polynomial with these
      coefficients, and 1 in front, on division by the generator. */
  lemma RegisterIsRemainder(v: seq<bv32>)
    requires Symbols(BECH32, v)
    ensures Divided(BECH32, RING, v)
  {
    Bech32Lawful();
    forall c, u ensures Divides(BECH32, RING, c, u) { RegisterDivides(c, u); }
    UnpackIs(1);
    assert Coefficients(1) == [0, 0, 0, 0, 0, 1];
    assert Zeros(BECH32, 5) + [BECH32.one] == [0, 0, 0, 0, 0, 1];
    PolyModIsRemainder(BECH32, RING, v);
  }
}

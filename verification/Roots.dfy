/** The Bech32 generator has the roots e^24, e^25 and e^26, so the checksum detects up to three errors within
    1023 symbols. */
module Roots {
  import opened Bch
  import opened Checksum
  import opened Evaluation
  import opened Gf1024
  import opened Register
  import opened Remainder
  import Gf32

  function Pick(c: bv10, x: bv32): bv10 { if x & 1 == 1 then c else 0 }

  /** The sum of the elements at whose bit `x` is set. */
  function Lin(x: bv32, a: bv10, b: bv10, c: bv10, d: bv10, e: bv10): bv10 {
    Pick(a, x) ^ Pick(b, x >> 1) ^ Pick(c, x >> 2) ^ Pick(d, x >> 3) ^ Pick(e, x >> 4)
  }

  /** A symbol as an element of the larger field: a becomes e^924, a root of a^5 + a^3 + 1. */
  function Embed(x: bv32): bv10 { Lin(x, 0x1, 0xe, 0x54, 0x358, 0xbf) }

  lemma EmbedBits(x: bv32, y: bv32)
    ensures Embed(x ^ y) == Embed(x) ^ Embed(y)
  {
  }

  lemma EmbedXor(x: bv32, y: bv32)
    ensures Embed(Xor(x, y)) == Sum(Embed(x), Embed(y))
  {
    EmbedBits(x, y);
  }

  lemma EmbedOnlyZero(x: bv32)
    requires x < 32 && Embed(x) == 0
    ensures x == 0
  {
  }

  lemma SymbolsEmbed()
    ensures Embeds(BECH32, GF1024, Embed)
  {
    forall x, y ensures EmbedsAt(BECH32, GF1024, Embed, x, y) {
      EmbedXor(x, y);
      if IsSymbol(x) && Embed(x) == 0 { EmbedOnlyZero(x); }
    }
  }

  // ---------------------------------------------------------------- the roots

  /** One step of the evaluation at `c`. */
  function Step(c: bv10, h: bv10, u: bv10): bv10 { Sum(Times(h, c), u) }

  lemma PowersOfRoots()
    ensures IsPower(24, 0x3f0) && IsPower(25, 0x2c3) && IsPower(26, 0xa5)
  {
    PowersUpTo16();
    PowerPlus(16, 8, 0x119, 0x100);
  }

  lemma FoldOne<T>(G: Algebra<T>, v: seq<T>, i: nat)
    requires i < |v|
    ensures Fold(G, G.zero, v[..i + 1]) == G.add(G.shift(Fold(G, G.zero, v[..i])), v[i])
  {
    assert v[..i + 1][..i] == v[..i];
  }

  lemma Generator(x: bv32, w: seq<bv10>)
    requires x < 32 && w == Map(Embed, Scale(Gf32.RING, x))
    ensures |w| == 7 && w[0] == Embed(x) && w[1] == Embed(Gf32.Times(x, 29)) && w[2] == Embed(Gf32.Times(x, 22))
    ensures w[3] == Embed(Gf32.Times(x, 20)) && w[4] == Embed(Gf32.Times(x, 21))
    ensures w[5] == Embed(Gf32.Times(x, 29)) && w[6] == Embed(Gf32.Times(x, 18))
  {
    Gf32.TimesOne(x);
  }

  lemma RootFrom(k: nat, c: bv10, x: bv32, h1: bv10, h2: bv10, h3: bv10, h4: bv10, h5: bv10)
    requires IsPower(k, c) && x < 32
    requires h1 == Step(c, Embed(x), Embed(Gf32.Times(x, 29))) && h2 == Step(c, h1, Embed(Gf32.Times(x, 22)))
    requires h3 == Step(c, h2, Embed(Gf32.Times(x, 20))) && h4 == Step(c, h3, Embed(Gf32.Times(x, 21)))
    requires h5 == Step(c, h4, Embed(Gf32.Times(x, 29))) && 0 == Step(c, h5, Embed(Gf32.Times(x, 18)))
    ensures RootAt(BECH32, Gf32.RING, GF1024, Embed, k, x)
  {
    var w := Map(Embed, Scale(Gf32.RING, x));
    Generator(x, w);
    FoldSeven(k, c, w, h1, h2, h3, h4, h5);
  }

  lemma FoldSeven(k: nat, c: bv10, w: seq<bv10>, h1: bv10, h2: bv10, h3: bv10, h4: bv10, h5: bv10)
    requires IsPower(k, c) && |w| == 7
    requires h1 == Step(c, w[0], w[1]) && h2 == Step(c, h1, w[2]) && h3 == Step(c, h2, w[3])
    requires h4 == Step(c, h3, w[4]) && h5 == Step(c, h4, w[5]) && 0 == Step(c, h5, w[6])
    ensures ZeroAt(GF1024, k, w)
  {
    FoldFirst(k, w);
    FoldStep(k, c, w, 1, w[0]);
    FoldStep(k, c, w, 2, h1);
    FoldStep(k, c, w, 3, h2);
    FoldStep(k, c, w, 4, h3);
    FoldStep(k, c, w, 5, h4);
    FoldStep(k, c, w, 6, h5);
    assert w[..7] == w;
  }

  lemma FoldFirst(k: nat, w: seq<bv10>)
    requires w != []
    ensures Fold(At(GF1024, k), 0, w[..1]) == w[0]
  {
    FieldGroup();
    PowerZero(GF1024, k);
    FoldOne(At(GF1024, k), w, 0);
    assert GF1024.Cancels(w[0], w[0]);
  }

  lemma FoldStep(k: nat, c: bv10, w: seq<bv10>, i: nat, h: bv10)
    requires IsPower(k, c) && i < |w| && Fold(At(GF1024, k), 0, w[..i]) == h
    ensures Fold(At(GF1024, k), 0, w[..i + 1]) == Step(c, h, w[i])
  {
    PowerIs(k, h);
    FoldOne(At(GF1024, k), w, i);
  }

  /** The coefficients of `x` times the generator, in the larger field. */
  lemma Products(x: bv32)
    requires x < 32
    ensures Embed(Gf32.Times(x, 29)) == Lin(x, 0x3b2, 0xb0, 0x303, 0x3bd, 0xea)
    ensures Embed(Gf32.Times(x, 22)) == Lin(x, 0xe5, 0x55, 0x356, 0xeb, 0x1)
  {
  }

  lemma MoreProducts(x: bv32)
    requires x < 32
    ensures Embed(Gf32.Times(x, 20)) == Lin(x, 0xeb, 0x1, 0xe, 0x54, 0x358)
    ensures Embed(Gf32.Times(x, 21)) == Lin(x, 0xea, 0xf, 0x5a, 0x30c, 0x3e7)
    ensures Embed(Gf32.Times(x, 18)) == Lin(x, 0xb1, 0x30d, 0x3e9, 0x3b2, 0xb0)
  {
  }

  /** The steps at e^24; the last one gives zero. */
  lemma First24(x: bv32)
    requires x < 32
    ensures Step(0x3f0, Lin(x, 0x1, 0xe, 0x54, 0x358, 0xbf), Lin(x, 0x3b2, 0xb0, 0x303, 0x3bd, 0xea))
         == Lin(x, 0x42, 0x39c, 0x124, 0x9d, 0x285)
    ensures Step(0x3f0, Lin(x, 0x42, 0x39c, 0x124, 0x9d, 0x285), Lin(x, 0xe5, 0x55, 0x356, 0xeb, 0x1))
         == Lin(x, 0x230, 0x3ea, 0x3a0, 0x4c, 0x3c8)
  {
  }

  lemma Middle24(x: bv32)
    requires x < 32
    ensures Step(0x3f0, Lin(x, 0x230, 0x3ea, 0x3a0, 0x4c, 0x3c8), Lin(x, 0xeb, 0x1, 0xe, 0x54, 0x358))
         == Lin(x, 0x2c4, 0x351, 0xc1, 0x1ad, 0x2c0)
    ensures Step(0x3f0, Lin(x, 0x2c4, 0x351, 0xc1, 0x1ad, 0x2c0), Lin(x, 0xea, 0xf, 0x5a, 0x30c, 0x3e7))
         == Lin(x, 0xc5, 0x195, 0x390, 0x16c, 0x36d)
  {
  }

  lemma Last24(x: bv32)
    requires x < 32
    ensures Step(0x3f0, Lin(x, 0xc5, 0x195, 0x390, 0x16c, 0x36d), Lin(x, 0x3b2, 0xb0, 0x303, 0x3bd, 0xea))
         == Lin(x, 0xdd, 0x105, 0x153, 0x217, 0x200)
    ensures Step(0x3f0, Lin(x, 0xdd, 0x105, 0x153, 0x217, 0x200), Lin(x, 0xb1, 0x30d, 0x3e9, 0x3b2, 0xb0))
         == 0
  {
  }

  lemma Root24(x: bv32)
    requires x < 32
    ensures RootAt(BECH32, Gf32.RING, GF1024, Embed, 24, x)
  {
    PowersOfRoots();
    Products(x);
    MoreProducts(x);
    First24(x);
    Middle24(x);
    Last24(x);
    RootFrom(24, 0x3f0, x, Lin(x, 0x42, 0x39c, 0x124, 0x9d, 0x285), Lin(x, 0x230, 0x3ea, 0x3a0, 0x4c, 0x3c8),
             Lin(x, 0x2c4, 0x351, 0xc1, 0x1ad, 0x2c0), Lin(x, 0xc5, 0x195, 0x390, 0x16c, 0x36d),
             Lin(x, 0xdd, 0x105, 0x153, 0x217, 0x200));
  }

  /** The steps at e^25; the last one gives zero. */
  lemma First25(x: bv32)
    requires x < 32
    ensures Step(0x2c3, Lin(x, 0x1, 0xe, 0x54, 0x358, 0xbf), Lin(x, 0x3b2, 0xb0, 0x303, 0x3bd, 0xea))
         == Lin(x, 0x171, 0x3cb, 0x26e, 0xde, 0x117)
    ensures Step(0x2c3, Lin(x, 0x171, 0x3cb, 0x26e, 0xde, 0x117), Lin(x, 0xe5, 0x55, 0x356, 0xeb, 0x1))
         == Lin(x, 0x2a7, 0x103, 0x177, 0x3ef, 0x396)
  {
  }

  lemma Middle25(x: bv32)
    requires x < 32
    ensures Step(0x2c3, Lin(x, 0x2a7, 0x103, 0x177, 0x3ef, 0x396), Lin(x, 0xeb, 0x1, 0xe, 0x54, 0x358))
         == Lin(x, 0x2e9, 0x2d7, 0x3a3, 0x5e, 0x334)
    ensures Step(0x2c3, Lin(x, 0x2e9, 0x2d7, 0x3a3, 0x5e, 0x334), Lin(x, 0xea, 0xf, 0x5a, 0x30c, 0x3e7))
         == Lin(x, 0x1bf, 0x23c, 0x3a2, 0x50, 0x360)
  {
  }

  lemma Last25(x: bv32)
    requires x < 32
    ensures Step(0x2c3, Lin(x, 0x1bf, 0x23c, 0x3a2, 0x50, 0x360), Lin(x, 0x3b2, 0xb0, 0x303, 0x3bd, 0xea))
         == Lin(x, 0x2ff, 0x213, 0x238, 0x39a, 0x100)
    ensures Step(0x2c3, Lin(x, 0x2ff, 0x213, 0x238, 0x39a, 0x100), Lin(x, 0xb1, 0x30d, 0x3e9, 0x3b2, 0xb0))
         == 0
  {
  }

  lemma Root25(x: bv32)
    requires x < 32
    ensures RootAt(BECH32, Gf32.RING, GF1024, Embed, 25, x)
  {
    PowersOfRoots();
    Products(x);
    MoreProducts(x);
    First25(x);
    Middle25(x);
    Last25(x);
    RootFrom(25, 0x2c3, x, Lin(x, 0x171, 0x3cb, 0x26e, 0xde, 0x117), Lin(x, 0x2a7, 0x103, 0x177, 0x3ef, 0x396),
             Lin(x, 0x2e9, 0x2d7, 0x3a3, 0x5e, 0x334), Lin(x, 0x1bf, 0x23c, 0x3a2, 0x50, 0x360),
             Lin(x, 0x2ff, 0x213, 0x238, 0x39a, 0x100));
  }

  /** The steps at e^26; the last one gives zero. */
  lemma First26(x: bv32)
    requires x < 32
    ensures Step(0xa5, Lin(x, 0x1, 0xe, 0x54, 0x358, 0xbf), Lin(x, 0x3b2, 0xb0, 0x303, 0x3bd, 0xea))
         == Lin(x, 0x317, 0x365, 0x1d9, 0x58, 0x310)
    ensures Step(0xa5, Lin(x, 0x317, 0x365, 0x1d9, 0x58, 0x310), Lin(x, 0xe5, 0x55, 0x356, 0xeb, 0x1))
         == Lin(x, 0x28, 0x1b0, 0x266, 0xae, 0x3b7)
  {
  }

  lemma Middle26(x: bv32)
    requires x < 32
    ensures Step(0xa5, Lin(x, 0x28, 0x1b0, 0x266, 0xae, 0x3b7), Lin(x, 0xeb, 0x1, 0xe, 0x54, 0x358))
         == Lin(x, 0xcc, 0x1eb, 0x164, 0x31d, 0x309)
    ensures Step(0xa5, Lin(x, 0xcc, 0x1eb, 0x164, 0x31d, 0x309), Lin(x, 0xea, 0xf, 0x5a, 0x30c, 0x3e7))
         == Lin(x, 0x29d, 0x4f, 0x3da, 0x280, 0xe9)
  {
  }

  lemma Last26(x: bv32)
    requires x < 32
    ensures Step(0xa5, Lin(x, 0x29d, 0x4f, 0x3da, 0x280, 0xe9), Lin(x, 0x3b2, 0xb0, 0x303, 0x3bd, 0xea))
         == Lin(x, 0x3ee, 0x398, 0x11c, 0x1cd, 0x80)
    ensures Step(0xa5, Lin(x, 0x3ee, 0x398, 0x11c, 0x1cd, 0x80), Lin(x, 0xb1, 0x30d, 0x3e9, 0x3b2, 0xb0))
         == 0
  {
  }

  lemma Root26(x: bv32)
    requires x < 32
    ensures RootAt(BECH32, Gf32.RING, GF1024, Embed, 26, x)
  {
    PowersOfRoots();
    Products(x);
    MoreProducts(x);
    First26(x);
    Middle26(x);
    Last26(x);
    RootFrom(26, 0xa5, x, Lin(x, 0x317, 0x365, 0x1d9, 0x58, 0x310), Lin(x, 0x28, 0x1b0, 0x266, 0xae, 0x3b7),
             Lin(x, 0xcc, 0x1eb, 0x164, 0x31d, 0x309), Lin(x, 0x29d, 0x4f, 0x3da, 0x280, 0xe9),
             Lin(x, 0x3ee, 0x398, 0x11c, 0x1cd, 0x80));
  }

  lemma Bech32Designed()
    ensures Designed(BECH32, Gf32.RING, GF1024, Embed, 24, 1023)
  {
    Bech32Lawful();
    FieldFaithful();
    SymbolsEmbed();
    forall c, u ensures Divides(BECH32, Gf32.RING, c, u) { Gf32.RegisterDivides(c, u); }
    forall x ensures RootAt(BECH32, Gf32.RING, GF1024, Embed, 24, x) { if IsSymbol(x) { Root24(x); } }
    forall x ensures RootAt(BECH32, Gf32.RING, GF1024, Embed, 25, x) { if IsSymbol(x) { Root25(x); } }
    forall x ensures RootAt(BECH32, Gf32.RING, GF1024, Embed, 26, x) { if IsSymbol(x) { Root26(x); } }
  }

  /** Changing at most three symbols within 1023 consecutive ones changes the checksum, at every length. */
  lemma ThreeErrorsDetected(a: seq<bv32>, b: seq<bv32>, i: nat, j: nat, l: nat)
    requires Symbols(BECH32, a) && Symbols(BECH32, b) && Scattered(a, b, i, j, l, 1023)
    ensures PolyMod(BECH32, a) != PolyMod(BECH32, b)
  {
    Bech32Designed();
    ScatteredDetected(BECH32, Gf32.RING, GF1024, Embed, 24, 1023, a, b, i, j, l);
  }
}

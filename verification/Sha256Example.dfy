/** SHA-256 against its standard, FIPS 180-4: where the constants come from, and the digest of the standard's
    example, the message "abc". */
module Sha256Example {
  import opened Common
  import opened Sha256

  // ---------------------------------------------------------------- sections 4.2.2 and 5.3.3

  /** `r` is the square root of `p` with 32 binary places, cut off there. */
  predicate SquareRoot(p: nat, r: nat) { r * r <= p * 0x1_0000_0000_0000_0000 < (r + 1) * (r + 1) }

  predicate CubeRoot(p: nat, r: nat) {
    r * r * r <= p * 0x1_0000_0000_0000_0000_0000_0000 < (r + 1) * (r + 1) * (r + 1)
  }

  /** The initial value: the binary places of the square roots of the first eight primes. */
  lemma InitialRoots()
    ensures SquareRoot(2, 0x1_6a09e667) && INITIAL[0] == 0x6a09e667
    ensures SquareRoot(3, 0x1_bb67ae85) && INITIAL[1] == 0xbb67ae85
    ensures SquareRoot(5, 0x2_3c6ef372) && INITIAL[2] == 0x3c6ef372
    ensures SquareRoot(7, 0x2_a54ff53a) && INITIAL[3] == 0xa54ff53a
    ensures SquareRoot(11, 0x3_510e527f) && INITIAL[4] == 0x510e527f
    ensures SquareRoot(13, 0x3_9b05688c) && INITIAL[5] == 0x9b05688c
    ensures SquareRoot(17, 0x4_1f83d9ab) && INITIAL[6] == 0x1f83d9ab
    ensures SquareRoot(19, 0x4_5be0cd19) && INITIAL[7] == 0x5be0cd19
  {
  }

  /** The constants of the rounds: the binary places of the cube roots of the first sixty-four. */
  lemma ConstantRoots0()
    ensures CubeRoot(2, 0x1_428a2f98) && Constant(0) == 0x428a2f98
    ensures CubeRoot(3, 0x1_71374491) && Constant(1) == 0x71374491
    ensures CubeRoot(5, 0x1_b5c0fbcf) && Constant(2) == 0xb5c0fbcf
    ensures CubeRoot(7, 0x1_e9b5dba5) && Constant(3) == 0xe9b5dba5
    ensures CubeRoot(11, 0x2_3956c25b) && Constant(4) == 0x3956c25b
    ensures CubeRoot(13, 0x2_59f111f1) && Constant(5) == 0x59f111f1
    ensures CubeRoot(17, 0x2_923f82a4) && Constant(6) == 0x923f82a4
    ensures CubeRoot(19, 0x2_ab1c5ed5) && Constant(7) == 0xab1c5ed5
    ensures CubeRoot(23, 0x2_d807aa98) && Constant(8) == 0xd807aa98
    ensures CubeRoot(29, 0x3_12835b01) && Constant(9) == 0x12835b01
    ensures CubeRoot(31, 0x3_243185be) && Constant(10) == 0x243185be
    ensures CubeRoot(37, 0x3_550c7dc3) && Constant(11) == 0x550c7dc3
    ensures CubeRoot(41, 0x3_72be5d74) && Constant(12) == 0x72be5d74
    ensures CubeRoot(43, 0x3_80deb1fe) && Constant(13) == 0x80deb1fe
    ensures CubeRoot(47, 0x3_9bdc06a7) && Constant(14) == 0x9bdc06a7
    ensures CubeRoot(53, 0x3_c19bf174) && Constant(15) == 0xc19bf174
  {
  }

  lemma ConstantRoots16()
    ensures CubeRoot(59, 0x3_e49b69c1) && Constant(16) == 0xe49b69c1
    ensures CubeRoot(61, 0x3_efbe4786) && Constant(17) == 0xefbe4786
    ensures CubeRoot(67, 0x4_0fc19dc6) && Constant(18) == 0x0fc19dc6
    ensures CubeRoot(71, 0x4_240ca1cc) && Constant(19) == 0x240ca1cc
    ensures CubeRoot(73, 0x4_2de92c6f) && Constant(20) == 0x2de92c6f
    ensures CubeRoot(79, 0x4_4a7484aa) && Constant(21) == 0x4a7484aa
    ensures CubeRoot(83, 0x4_5cb0a9dc) && Constant(22) == 0x5cb0a9dc
    ensures CubeRoot(89, 0x4_76f988da) && Constant(23) == 0x76f988da
    ensures CubeRoot(97, 0x4_983e5152) && Constant(24) == 0x983e5152
    ensures CubeRoot(101, 0x4_a831c66d) && Constant(25) == 0xa831c66d
    ensures CubeRoot(103, 0x4_b00327c8) && Constant(26) == 0xb00327c8
    ensures CubeRoot(107, 0x4_bf597fc7) && Constant(27) == 0xbf597fc7
    ensures CubeRoot(109, 0x4_c6e00bf3) && Constant(28) == 0xc6e00bf3
    ensures CubeRoot(113, 0x4_d5a79147) && Constant(29) == 0xd5a79147
    ensures CubeRoot(127, 0x5_06ca6351) && Constant(30) == 0x06ca6351
    ensures CubeRoot(131, 0x5_14292967) && Constant(31) == 0x14292967
  {
  }

  lemma ConstantRoots32()
    ensures CubeRoot(137, 0x5_27b70a85) && Constant(32) == 0x27b70a85
    ensures CubeRoot(139, 0x5_2e1b2138) && Constant(33) == 0x2e1b2138
    ensures CubeRoot(149, 0x5_4d2c6dfc) && Constant(34) == 0x4d2c6dfc
    ensures CubeRoot(151, 0x5_53380d13) && Constant(35) == 0x53380d13
    ensures CubeRoot(157, 0x5_650a7354) && Constant(36) == 0x650a7354
    ensures CubeRoot(163, 0x5_766a0abb) && Constant(37) == 0x766a0abb
    ensures CubeRoot(167, 0x5_81c2c92e) && Constant(38) == 0x81c2c92e
    ensures CubeRoot(173, 0x5_92722c85) && Constant(39) == 0x92722c85
    ensures CubeRoot(179, 0x5_a2bfe8a1) && Constant(40) == 0xa2bfe8a1
    ensures CubeRoot(181, 0x5_a81a664b) && Constant(41) == 0xa81a664b
    ensures CubeRoot(191, 0x5_c24b8b70) && Constant(42) == 0xc24b8b70
    ensures CubeRoot(193, 0x5_c76c51a3) && Constant(43) == 0xc76c51a3
    ensures CubeRoot(197, 0x5_d192e819) && Constant(44) == 0xd192e819
    ensures CubeRoot(199, 0x5_d6990624) && Constant(45) == 0xd6990624
    ensures CubeRoot(211, 0x5_f40e3585) && Constant(46) == 0xf40e3585
    ensures CubeRoot(223, 0x6_106aa070) && Constant(47) == 0x106aa070
  {
  }

  lemma ConstantRoots48()
    ensures CubeRoot(227, 0x6_19a4c116) && Constant(48) == 0x19a4c116
    ensures CubeRoot(229, 0x6_1e376c08) && Constant(49) == 0x1e376c08
    ensures CubeRoot(233, 0x6_2748774c) && Constant(50) == 0x2748774c
    ensures CubeRoot(239, 0x6_34b0bcb5) && Constant(51) == 0x34b0bcb5
    ensures CubeRoot(241, 0x6_391c0cb3) && Constant(52) == 0x391c0cb3
    ensures CubeRoot(251, 0x6_4ed8aa4a) && Constant(53) == 0x4ed8aa4a
    ensures CubeRoot(257, 0x6_5b9cca4f) && Constant(54) == 0x5b9cca4f
    ensures CubeRoot(263, 0x6_682e6ff3) && Constant(55) == 0x682e6ff3
    ensures CubeRoot(269, 0x6_748f82ee) && Constant(56) == 0x748f82ee
    ensures CubeRoot(271, 0x6_78a5636f) && Constant(57) == 0x78a5636f
    ensures CubeRoot(277, 0x6_84c87814) && Constant(58) == 0x84c87814
    ensures CubeRoot(281, 0x6_8cc70208) && Constant(59) == 0x8cc70208
    ensures CubeRoot(283, 0x6_90befffa) && Constant(60) == 0x90befffa
    ensures CubeRoot(293, 0x6_a4506ceb) && Constant(61) == 0xa4506ceb
    ensures CubeRoot(307, 0x6_bef9a3f7) && Constant(62) == 0xbef9a3f7
    ensures CubeRoot(311, 0x6_c67178f2) && Constant(63) == 0xc67178f2
  {
  }

  // ---------------------------------------------------------------- section 6.2.2: eight rounds at a time

  /** The schedule for "abc". */
  const W0: Words := [0x61626380, 0x00000000, 0x00000000, 0x00000000, 0x00000000, 0x00000000, 0x00000000, 0x00000000]
  const W1: Words := [0x00000000, 0x00000000, 0x00000000, 0x00000000, 0x00000000, 0x00000000, 0x00000000, 0x00000018]
  const W2: Words := [0x61626380, 0x000f0000, 0x7da86405, 0x600003c6, 0x3e9d7b78, 0x0183fc00, 0x12dcbfdb, 0xe2e2c38e]
  const W3: Words := [0xc8215c1a, 0xb73679a2, 0xe5bc3909, 0x32663c5b, 0x9d209d67, 0xec8726cb, 0x702138a4, 0xd3b7973b]
  const W4: Words := [0x93f5997f, 0x3b68ba73, 0xaff4ffc1, 0xf10a5c62, 0x0a8b3996, 0x72af830a, 0x9409e33e, 0x24641522]
  const W5: Words := [0x9f47bf94, 0xf0a64f5a, 0x3e246a79, 0x27333ba3, 0x0c4763f2, 0x840abf27, 0x7a290d5d, 0x065c43da]
  const W6: Words := [0xfb3e89cb, 0xcc7617db, 0xb9e66c34, 0xa9993667, 0x84badedd, 0xc21462bc, 0x1487472c, 0xb20f7a99]
  const W7: Words := [0xef57b9cd, 0xebe6b238, 0x9fe3095e, 0x78bc8d4b, 0xa43fcf15, 0x668b2ff8, 0xeeaba2cc, 0x12b1edeb]

  /** The working variables every eight rounds. */
  const V0: Words := [0x6a09e667, 0xbb67ae85, 0x3c6ef372, 0xa54ff53a, 0x510e527f, 0x9b05688c, 0x1f83d9ab, 0x5be0cd19]
  const V1: Words := [0x85a07b5f, 0xe5030380, 0x2b4209f5, 0x04409a6a, 0x0c657a79, 0x9b27a401, 0x714260ad, 0x43ada245]
  const V2: Words := [0xb0fa238e, 0xc0645fde, 0xd932eb16, 0x87912990, 0x07590dcd, 0x0b92f20c, 0x745a48de, 0x1e578218]
  const V3: Words := [0xc5d53d8d, 0xa7a3623f, 0xc2606d6d, 0x9dc68b63, 0xaa47c347, 0x49f5114a, 0xe1257970, 0x8ada8930]
  const V4: Words := [0x73b33bf5, 0xea992a22, 0xa0060b30, 0x363482c9, 0xba591112, 0x0109ab3a, 0xade79437, 0x6112a3b7]
  const V5: Words := [0x79ea687a, 0x6dc57a8a, 0x34df1604, 0x41a65cb1, 0x1efbc0a0, 0xf0781bc8, 0xa507a53d, 0x0772a26b]
  const V6: Words := [0x4172328d, 0xa14c14b0, 0x72ab4b91, 0x26628815, 0xfecf0bc6, 0xd57b94a9, 0xb7755da1, 0xa80f11f0]
  const V7: Words := [0x38cc9913, 0x3ec45cdb, 0xf5702fdb, 0x101fd28f, 0x54cb266b, 0xe50e1b4f, 0x9f4787c3, 0x529e7d00]
  const V8: Words := [0x506e3058, 0xd39a2165, 0x04d24d6c, 0xb85e2ce9, 0x5ef50f24, 0xfb121210, 0x948d25b6, 0x961f4894]

  /** Eight rounds from round `t` on, with the words `w`. */
  function Eight(o: Ops, v: Words, t: nat, w: seq<bv32>): Words
    requires |w| == 8
  {
    var v1 := Round(o, v, o.constant(t), w[0]);
    var v2 := Round(o, v1, o.constant(t + 1), w[1]);
    var v3 := Round(o, v2, o.constant(t + 2), w[2]);
    var v4 := Round(o, v3, o.constant(t + 3), w[3]);
    var v5 := Round(o, v4, o.constant(t + 4), w[4]);
    var v6 := Round(o, v5, o.constant(t + 5), w[5]);
    var v7 := Round(o, v6, o.constant(t + 6), w[6]);
    Round(o, v7, o.constant(t + 7), w[7])
  }

  function NextWord(o: Ops, a: bv32, b: bv32, c: bv32, d: bv32): bv32 {
    o.add(a, o.add(o.add(o.smallSigma1(d), c), o.smallSigma0(b)))
  }

  /** The eight words that follow these sixteen. */
  function NextWords(o: Ops, w: seq<bv32>): (n: seq<bv32>)
    requires |w| == 16
    ensures |n| == 8
  {
    var n0 := NextWord(o, w[0], w[1], w[9], w[14]);
    var n1 := NextWord(o, w[1], w[2], w[10], w[15]);
    var n2 := NextWord(o, w[2], w[3], w[11], n0);
    var n3 := NextWord(o, w[3], w[4], w[12], n1);
    var n4 := NextWord(o, w[4], w[5], w[13], n2);
    var n5 := NextWord(o, w[5], w[6], w[14], n3);
    var n6 := NextWord(o, w[6], w[7], w[15], n4);
    var n7 := NextWord(o, w[7], w[8], n0, n5);
    [n0, n1, n2, n3, n4, n5, n6, n7]
  }

  /** Every word from 16 on is made of earlier ones. */
  ghost predicate Schedules(o: Ops, word: nat -> bv32) { forall t: nat :: Made(o, word, t) }

  ghost predicate Made(o: Ops, word: nat -> bv32, t: nat) {
    word(t + 16) == NextWord(o, word(t), word(t + 1), word(t + 9), word(t + 14))
  }

  ghost predicate Listed(word: nat -> bv32, t: nat, w: seq<bv32>) { forall i: nat | i < |w| :: w[i] == word(t + i) }

  lemma OneWord(o: Ops, word: nat -> bv32, t: nat, x: bv32, p: bv32, q: bv32, r: bv32, s: bv32)
    requires Schedules(o, word) && x == NextWord(o, p, q, r, s)
    requires p == word(t) && q == word(t + 1) && r == word(t + 9) && s == word(t + 14)
    ensures x == word(t + 16)
  {
    assert Made(o, word, t);
  }

  lemma NextWordsAre(o: Ops, w: seq<bv32>, n: seq<bv32>)
    requires |w| == 16 && n == NextWords(o, w)
    ensures n[0] == NextWord(o, w[0], w[1], w[9], w[14])
    ensures n[1] == NextWord(o, w[1], w[2], w[10], w[15])
    ensures n[2] == NextWord(o, w[2], w[3], w[11], n[0])
    ensures n[3] == NextWord(o, w[3], w[4], w[12], n[1])
    ensures n[4] == NextWord(o, w[4], w[5], w[13], n[2])
    ensures n[5] == NextWord(o, w[5], w[6], w[14], n[3])
    ensures n[6] == NextWord(o, w[6], w[7], w[15], n[4])
    ensures n[7] == NextWord(o, w[7], w[8], n[0], n[5])
  {
  }

  lemma FourWords(o: Ops, word: nat -> bv32, t: nat, w: seq<bv32>, n: seq<bv32>)
    requires |w| == 16 && Schedules(o, word) && Listed(word, t, w) && n == NextWords(o, w)
    ensures n[0] == word(t + 16) && n[1] == word(t + 17) && n[2] == word(t + 18) && n[3] == word(t + 19)
  {
    NextWordsAre(o, w, n);
    OneWord(o, word, t, n[0], w[0], w[1], w[9], w[14]);
    OneWord(o, word, t + 1, n[1], w[1], w[2], w[10], w[15]);
    OneWord(o, word, t + 2, n[2], w[2], w[3], w[11], n[0]);
    OneWord(o, word, t + 3, n[3], w[3], w[4], w[12], n[1]);
  }

  lemma EightWords(o: Ops, word: nat -> bv32, t: nat, w: seq<bv32>)
    requires |w| == 16 && Schedules(o, word) && Listed(word, t, w)
    ensures Listed(word, t + 16, NextWords(o, w))
  {
    var n := NextWords(o, w);
    NextWordsAre(o, w, n);
    FourWords(o, word, t, w, n);
    OneWord(o, word, t + 4, n[4], w[4], w[5], w[13], n[2]);
    OneWord(o, word, t + 5, n[5], w[5], w[6], w[14], n[3]);
    OneWord(o, word, t + 6, n[6], w[6], w[7], w[15], n[4]);
    OneWord(o, word, t + 7, n[7], w[7], w[8], n[0], n[5]);
  }

  lemma WordsNext(o: Ops, word: nat -> bv32, t: nat, u: seq<bv32>, w: seq<bv32>, n: seq<bv32>)
    requires |u| == |w| == 8 && Schedules(o, word) && Listed(word, t, u) && Listed(word, t + 8, w)
    requires NextWords(o, u + w) == n
    ensures Listed(word, t + 16, n)
  {
    forall i: nat | i < 16 ensures (u + w)[i] == word(t + i) {
      if i >= 8 { assert w[i - 8] == word(t + 8 + (i - 8)); }
    }
    EightWords(o, word, t, u + w);
  }

  lemma Words16()
    ensures NextWords(STANDARD, W0 + W1) == W2 && NextWords(STANDARD, W1 + W2) == W3
  {
  }

  lemma Words32()
    ensures NextWords(STANDARD, W2 + W3) == W4 && NextWords(STANDARD, W3 + W4) == W5
  {
  }

  lemma Words48()
    ensures NextWords(STANDARD, W4 + W5) == W6 && NextWords(STANDARD, W5 + W6) == W7
  {
  }

  function WordOf(o: Ops, b: Chunk): nat -> bv32 { (t: nat) => W(o, b, t) }

  lemma WordsSchedule(o: Ops, b: Chunk)
    ensures Schedules(o, WordOf(o, b))
  {
    forall t: nat ensures Made(o, WordOf(o, b), t) { WordIs(o, b, t); }
  }

  lemma WordIs(o: Ops, b: Chunk, t: nat)
    ensures W(o, b, t + 16) == NextWord(o, W(o, b, t), W(o, b, t + 1), W(o, b, t + 9), W(o, b, t + 14))
  {
  }

  /** The schedule, once its first words are right. */
  lemma Schedule(word: nat -> bv32)
    requires Schedules(STANDARD, word) && Listed(word, 0, W0) && Listed(word, 8, W1)
    ensures Listed(word, 16, W2) && Listed(word, 24, W3) && Listed(word, 32, W4)
    ensures Listed(word, 40, W5) && Listed(word, 48, W6) && Listed(word, 56, W7)
  {
    Words16();
    Words32();
    Words48();
    WordsNext(STANDARD, word, 0, W0, W1, W2);
    WordsNext(STANDARD, word, 8, W1, W2, W3);
    WordsNext(STANDARD, word, 16, W2, W3, W4);
    WordsNext(STANDARD, word, 24, W3, W4, W5);
    WordsNext(STANDARD, word, 32, W4, W5, W6);
    WordsNext(STANDARD, word, 40, W5, W6, W7);
  }

  lemma OneRound(o: Ops, s: Words, b: Chunk, t: nat, x: bv32)
    requires x == WordOf(o, b)(t)
    ensures Rounds(o, s, b, t + 1) == Round(o, Rounds(o, s, b, t), o.constant(t), x)
  {
  }

  lemma EightRounds(o: Ops, s: Words, b: Chunk, t: nat, w: seq<bv32>)
    requires |w| == 8 && Listed(WordOf(o, b), t, w)
    ensures Rounds(o, s, b, t + 8) == Eight(o, Rounds(o, s, b, t), t, w)
  {
    OneRound(o, s, b, t, w[0]);
    OneRound(o, s, b, t + 1, w[1]);
    OneRound(o, s, b, t + 2, w[2]);
    OneRound(o, s, b, t + 3, w[3]);
    OneRound(o, s, b, t + 4, w[4]);
    OneRound(o, s, b, t + 5, w[5]);
    OneRound(o, s, b, t + 6, w[6]);
    OneRound(o, s, b, t + 7, w[7]);
  }

  lemma FirstEight()
    ensures Eight(STANDARD, V0, 0, W0) == V1
  {
  }

  lemma Begin(o: Ops, s: Words, b: Chunk, t: nat, w: seq<bv32>, v: Words)
    requires t == 0 && |w| == 8 && Listed(WordOf(o, b), t, w) && Eight(o, s, t, w) == v
    ensures Rounds(o, s, b, t + 8) == v
  {
    EightRounds(o, s, b, t, w);
  }

  lemma FirstRounds(b: Chunk)
    requires Listed(WordOf(STANDARD, b), 0, W0)
    ensures Rounds(STANDARD, V0, b, 8) == V1
  {
    FirstEight();
    Begin(STANDARD, V0, b, 0, W0, V1);
  }

  lemma Rounds16(s: Words, b: Chunk)
    requires Listed(WordOf(STANDARD, b), 8, W1) && Rounds(STANDARD, s, b, 8) == V1
    ensures Rounds(STANDARD, s, b, 16) == V2
  {
    EightRounds(STANDARD, s, b, 8, W1);
  }

  lemma Rounds24(s: Words, b: Chunk)
    requires Listed(WordOf(STANDARD, b), 16, W2) && Rounds(STANDARD, s, b, 16) == V2
    ensures Rounds(STANDARD, s, b, 24) == V3
  {
    EightRounds(STANDARD, s, b, 16, W2);
  }

  lemma Rounds32(s: Words, b: Chunk)
    requires Listed(WordOf(STANDARD, b), 24, W3) && Rounds(STANDARD, s, b, 24) == V3
    ensures Rounds(STANDARD, s, b, 32) == V4
  {
    EightRounds(STANDARD, s, b, 24, W3);
  }

  lemma Rounds40(s: Words, b: Chunk)
    requires Listed(WordOf(STANDARD, b), 32, W4) && Rounds(STANDARD, s, b, 32) == V4
    ensures Rounds(STANDARD, s, b, 40) == V5
  {
    EightRounds(STANDARD, s, b, 32, W4);
  }

  lemma Rounds48(s: Words, b: Chunk)
    requires Listed(WordOf(STANDARD, b), 40, W5) && Rounds(STANDARD, s, b, 40) == V5
    ensures Rounds(STANDARD, s, b, 48) == V6
  {
    EightRounds(STANDARD, s, b, 40, W5);
  }

  lemma Rounds56(s: Words, b: Chunk)
    requires Listed(WordOf(STANDARD, b), 48, W6) && Rounds(STANDARD, s, b, 48) == V6
    ensures Rounds(STANDARD, s, b, 56) == V7
  {
    EightRounds(STANDARD, s, b, 48, W6);
  }

  lemma Rounds64(s: Words, b: Chunk)
    requires Listed(WordOf(STANDARD, b), 56, W7) && Rounds(STANDARD, s, b, 56) == V7
    ensures Rounds(STANDARD, s, b, 64) == V8
  {
    EightRounds(STANDARD, s, b, 56, W7);
  }

  // ---------------------------------------------------------------- section 5.1.1: the block

  const ABC: seq<byte> := [0x61, 0x62, 0x63]

  lemma PadAbc()
    ensures Pad(ABC) == ABC + [0x80] + seq(52, _ => 0) + BigEndian64(24)
  {
  }

  lemma {:induction false} Large(k: nat)
    ensures Pow2(k + 8) >= 256
  {
    if k == 0 { assert Pow2(8) == 256; } else { Large(k - 1); }
  }

  lemma NoPart(p: nat)
    requires p >= 256
    ensures (24 / p) % 256 == 0
  {
  }

  lemma LengthByte(i: nat)
    requires i < 8
    ensures BigEndian64(24)[i] == if i == 7 then 24 else 0
  {
    if i < 7 {
      Large(8 * (6 - i));
      NoPart(Pow2(8 * (7 - i)));
    }
  }

  lemma BlockWords()
    ensures BigEndian(0x61, 0x62, 0x63, 0x80) == 0x61626380
    ensures BigEndian(0, 0, 0, 0) == 0 && BigEndian(0, 0, 0, 24) == 24
  {
  }

  ghost predicate Padded(b: Chunk) {
    && b[0] == 0x61 && b[1] == 0x62 && b[2] == 0x63 && b[3] == 0x80 && b[63] == 24
    && forall i | 4 <= i < 63 :: b[i] == 0
  }

  lemma BlockWord(b: Chunk, t: nat)
    requires Padded(b) && t < 16
    ensures Word(STANDARD, b, t) == if t == 0 then 0x61626380 else if t == 15 then 24 else 0
  {
    BlockWords();
  }

  lemma FirstWords(b: Chunk)
    requires Padded(b)
    ensures Listed(WordOf(STANDARD, b), 0, W0) && Listed(WordOf(STANDARD, b), 8, W1)
  {
    var word := WordOf(STANDARD, b);
    forall i: nat | i < 8 ensures W0[i] == word(0 + i) { BlockWord(b, i); }
    forall i: nat | i < 8 ensures W1[i] == word(8 + i) { BlockWord(b, 8 + i); }
  }

  lemma Compressed(b: Chunk)
    requires Listed(WordOf(STANDARD, b), 0, W0) && Listed(WordOf(STANDARD, b), 8, W1)
    ensures Rounds(STANDARD, V0, b, 64) == V8
  {
    WordsSchedule(STANDARD, b);
    Schedule(WordOf(STANDARD, b));
    FirstRounds(b);
    Rounds16(V0, b);
    Rounds24(V0, b);
    Rounds32(V0, b);
    Rounds40(V0, b);
    Rounds48(V0, b);
    Rounds56(V0, b);
    Rounds64(V0, b);
  }

  const DIGEST: Words :=
    [0xba7816bf, 0x8f01cfea, 0x414140de, 0x5dae2223, 0xb00361a3, 0x96177a9c, 0xb410ff61, 0xf20015ad]

  lemma Summed()
    ensures Sum(STANDARD, V0, V8) == DIGEST && INITIAL == V0
  {
  }

  lemma DigestBytes()
    ensures Output(DIGEST) == [
      0xba, 0x78, 0x16, 0xbf, 0x8f, 0x01, 0xcf, 0xea, 0x41, 0x41, 0x40, 0xde, 0x5d, 0xae, 0x22, 0x23,
      0xb0, 0x03, 0x61, 0xa3, 0x96, 0x17, 0x7a, 0x9c, 0xb4, 0x10, 0xff, 0x61, 0xf2, 0x00, 0x15, 0xad
    ]
  {
  }

  lemma BlockBytes(b: Chunk)
    requires b == ABC + [0x80] + seq(52, _ => 0) + BigEndian64(24)
    ensures Padded(b)
  {
    LengthByte(7);
    forall i | 56 <= i < 63 ensures b[i] == 0 { LengthByte(i - 56); }
  }

  lemma OneBlock(f: Transform, s: Words, b: Chunk)
    ensures Fold(f, s, b) == f(s, b)
  {
    assert b[..0] == [] && b[0..] == b;
  }

  /** The digest of "abc". */
  lemma AbcDigest()
    ensures Hash256(ABC) == [
      0xba, 0x78, 0x16, 0xbf, 0x8f, 0x01, 0xcf, 0xea, 0x41, 0x41, 0x40, 0xde, 0x5d, 0xae, 0x22, 0x23,
      0xb0, 0x03, 0x61, 0xa3, 0x96, 0x17, 0x7a, 0x9c, 0xb4, 0x10, 0xff, 0x61, 0xf2, 0x00, 0x15, 0xad
    ]
  {
    PadAbc();
    var b: Chunk := Pad(ABC);
    BlockBytes(b);
    FirstWords(b);
    Compressed(b);
    Summed();
    OneBlock(Compression(STANDARD), INITIAL, b);
    DigestBytes();
  }
}

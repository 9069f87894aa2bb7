/** A string of BIP-173 with its parts: every character of the set occurs in it, in the order of the symbols. */
module Bech32Example {
  import opened Checksum
  import opened Register
  import opened Bech32
  import opened Bech32Code

  const PREFIX := "abcdef"

  /** All symbols, in order, and then the checksum. */
  const TEXT := "qpzry9x8" + "gf2tvdw0" + "s3jn54kh" + "ce6mua7l" + "mqqqxw"

  const HIGH: seq<Sym> := [3, 3, 3, 3, 3, 3, 0]
  const LOW: seq<Sym> := [1, 2, 3, 4, 5, 6]
  const FIRST: seq<Sym> := [0, 1, 2, 3, 4, 5, 6, 7]
  const SECOND: seq<Sym> := [8, 9, 10, 11, 12, 13, 14, 15]
  const THIRD: seq<Sym> := [16, 17, 18, 19, 20, 21, 22, 23]
  const FOURTH: seq<Sym> := [24, 25, 26, 27, 28, 29, 30, 31]
  const SYMBOLS := FIRST + SECOND + THIRD + FOURTH
  const CHECKSUM: seq<Sym> := [27, 0, 0, 0, 6, 14]

  // ---------------------------------------------------------------- the register, symbol by symbol

  predicate Takes(c: bv32, u: bv32, d: bv32) { Xor(Shift(c), u) == d }

  lemma Steps0()
    ensures Takes(0x00000001, 3, 0x00000023) && Takes(0x00000023, 3, 0x00000463)
    ensures Takes(0x00000463, 3, 0x00008c63) && Takes(0x00008c63, 3, 0x00118c63)
    ensures Takes(0x00118c63, 3, 0x02318c63) && Takes(0x02318c63, 3, 0x3d5bdbd1)
    ensures Takes(0x3d5bdbd1, 0, 0x04dcbcd9)
  {
  }

  lemma Steps1()
    ensures Takes(0x04dcbcd9, 1, 0x3dc7154c) && Takes(0x3dc7154c, 2, 0x17456f7b)
    ensures Takes(0x17456f7b, 3, 0x08d50561) && Takes(0x08d50561, 4, 0x0401b5de)
    ensures Takes(0x0401b5de, 5, 0x266635a8) && Takes(0x266635a8, 6, 0x3be80e6a)
  {
  }

  lemma Steps2()
    ensures Takes(0x3be80e6a, 0, 0x0f9cd266) && Takes(0x0f9cd266, 1, 0x30018ce4)
    ensures Takes(0x30018ce4, 2, 0x1767cdec) && Takes(0x1767cdec, 3, 0x0c815781)
    ensures Takes(0x0c815781, 4, 0x28db67b3) && Takes(0x28db67b3, 5, 0x2fd98d2c)
    ensures Takes(0x2fd98d2c, 6, 0x12be0710) && Takes(0x12be0710, 7, 0x11e88668)
  {
  }

  lemma Steps3()
    ensures Takes(0x11e88668, 8, 0x0052fed5) && Takes(0x0052fed5, 9, 0x0a5fdaa9)
    ensures Takes(0x0a5fdaa9, 10, 0x2e301b62) && Takes(0x2e301b62, 11, 0x2f8ccedd)
    ensures Takes(0x2f8ccedd, 12, 0x1816793a) && Takes(0x1816793a, 13, 0x212c0d6a)
    ensures Takes(0x212c0d6a, 14, 0x0f95cffd) && Takes(0x0f95cffd, 15, 0x31223f8a)
  {
  }

  lemma Steps4()
    ensures Takes(0x31223f8a, 16, 0x3311a03e) && Takes(0x3311a03e, 17, 0x0e08010d)
    ensures Takes(0x0e08010d, 18, 0x029be197) && Takes(0x029be197, 19, 0x28166541)
    ensures Takes(0x28166541, 20, 0x3679d37d) && Takes(0x3679d37d, 21, 0x0556e704)
    ensures Takes(0x0556e704, 22, 0x0c8c6efb) && Takes(0x0c8c6efb, 23, 0x297c48e0)
  {
  }

  lemma Steps5()
    ensures Takes(0x297c48e0, 24, 0x1b3c6751) && Takes(0x1b3c6751, 25, 0x3f0597ac)
    ensures Takes(0x3f0597ac, 26, 0x347f64d1) && Takes(0x347f64d1, 27, 0x3eea4538)
    ensures Takes(0x3eea4538, 28, 0x09853657) && Takes(0x09853657, 29, 0x2e07d307)
    ensures Takes(0x2e07d307, 30, 0x2975c268) && Takes(0x2975c268, 31, 0x1a0d3656)
  {
  }

  lemma Steps6()
    ensures Takes(0x1a0d3656, 27, 0x192fb74e) && Takes(0x192fb74e, 0, 0x0615c3e7)
    ensures Takes(0x0615c3e7, 0, 0x1f82a53f) && Takes(0x1f82a53f, 0, 0x0e8d5418)
    ensures Takes(0x0e8d5418, 6, 0x12314323) && Takes(0x12314323, 14, 0x00000001)
  {
  }

  lemma {:induction false} Follows(v: seq<bv32>, trace: seq<bv32>)
    requires |trace| == |v| + 1 && forall i | 0 <= i < |v| :: Takes(trace[i], v[i], trace[i + 1])
    ensures Fold(BECH32, trace[0], v) == trace[|v|]
  {
    if v != [] {
      var n := |v| - 1;
      Follows(v[..n], trace[..n + 1]);
      ShiftIs(trace[n]);
      assert Takes(trace[n], v[n], trace[n + 1]);
    }
  }

  lemma Piece0()
    ensures Fold(BECH32, 0x00000001, [3, 3, 3, 3, 3, 3, 0]) == 0x04dcbcd9
  {
    Steps0();
    Follows([3, 3, 3, 3, 3, 3, 0],
            [0x00000001, 0x00000023, 0x00000463, 0x00008c63, 0x00118c63,
             0x02318c63, 0x3d5bdbd1, 0x04dcbcd9]);
  }

  lemma Piece1()
    ensures Fold(BECH32, 0x04dcbcd9, [1, 2, 3, 4, 5, 6]) == 0x3be80e6a
  {
    Steps1();
    Follows([1, 2, 3, 4, 5, 6],
            [0x04dcbcd9, 0x3dc7154c, 0x17456f7b, 0x08d50561, 0x0401b5de,
             0x266635a8, 0x3be80e6a]);
  }

  lemma Piece2()
    ensures Fold(BECH32, 0x3be80e6a, [0, 1, 2, 3, 4, 5, 6, 7]) == 0x11e88668
  {
    Steps2();
    Follows([0, 1, 2, 3, 4, 5, 6, 7],
            [0x3be80e6a, 0x0f9cd266, 0x30018ce4, 0x1767cdec, 0x0c815781,
             0x28db67b3, 0x2fd98d2c, 0x12be0710, 0x11e88668]);
  }

  lemma Piece3()
    ensures Fold(BECH32, 0x11e88668, [8, 9, 10, 11, 12, 13, 14, 15]) == 0x31223f8a
  {
    Steps3();
    Follows([8, 9, 10, 11, 12, 13, 14, 15],
            [0x11e88668, 0x0052fed5, 0x0a5fdaa9, 0x2e301b62, 0x2f8ccedd,
             0x1816793a, 0x212c0d6a, 0x0f95cffd, 0x31223f8a]);
  }

  lemma Piece4()
    ensures Fold(BECH32, 0x31223f8a, [16, 17, 18, 19, 20, 21, 22, 23]) == 0x297c48e0
  {
    Steps4();
    Follows([16, 17, 18, 19, 20, 21, 22, 23],
            [0x31223f8a, 0x3311a03e, 0x0e08010d, 0x029be197, 0x28166541,
             0x3679d37d, 0x0556e704, 0x0c8c6efb, 0x297c48e0]);
  }

  lemma Piece5()
    ensures Fold(BECH32, 0x297c48e0, [24, 25, 26, 27, 28, 29, 30, 31]) == 0x1a0d3656
  {
    Steps5();
    Follows([24, 25, 26, 27, 28, 29, 30, 31],
            [0x297c48e0, 0x1b3c6751, 0x3f0597ac, 0x347f64d1, 0x3eea4538,
             0x09853657, 0x2e07d307, 0x2975c268, 0x1a0d3656]);
  }

  lemma Piece6()
    ensures Fold(BECH32, 0x1a0d3656, [27, 0, 0, 0, 6, 14]) == 0x00000001
  {
    Steps6();
    Follows([27, 0, 0, 0, 6, 14],
            [0x1a0d3656, 0x192fb74e, 0x0615c3e7, 0x1f82a53f, 0x0e8d5418,
             0x12314323, 0x00000001]);
  }

  lemma WordsOf(v: seq<Sym>, w: seq<bv32>)
    requires |v| == |w| && forall i | 0 <= i < |v| :: FromWord(w[i]) == v[i] && IsSymbol(w[i])
    ensures ToWords(v) == w
  {
    forall i | 0 <= i < |v| ensures ToWords(v)[i] == w[i] { ToFromWord(w[i]); }
  }

  lemma Numbers()
    ensures FromWord(0) == 0 && FromWord(1) == 1 && FromWord(2) == 2 && FromWord(3) == 3
    ensures FromWord(4) == 4 && FromWord(5) == 5 && FromWord(6) == 6 && FromWord(7) == 7
    ensures FromWord(8) == 8 && FromWord(9) == 9 && FromWord(10) == 10 && FromWord(11) == 11
    ensures FromWord(12) == 12 && FromWord(13) == 13 && FromWord(14) == 14 && FromWord(15) == 15
    ensures FromWord(16) == 16 && FromWord(17) == 17 && FromWord(18) == 18 && FromWord(19) == 19
    ensures FromWord(20) == 20 && FromWord(21) == 21 && FromWord(22) == 22 && FromWord(23) == 23
    ensures FromWord(24) == 24 && FromWord(25) == 25 && FromWord(26) == 26 && FromWord(27) == 27
    ensures FromWord(28) == 28 && FromWord(29) == 29 && FromWord(30) == 30 && FromWord(31) == 31
  {
  }

  // ---------------------------------------------------------------- the string

  lemma Expanded()
    ensures ExpandHrp(PREFIX) == HIGH + LOW
  {
  }

  lemma Words()
    ensures ToWords(HIGH) == [3, 3, 3, 3, 3, 3, 0]
    ensures ToWords(LOW) == [1, 2, 3, 4, 5, 6]
    ensures ToWords(FIRST) == [0, 1, 2, 3, 4, 5, 6, 7]
    ensures ToWords(SECOND) == [8, 9, 10, 11, 12, 13, 14, 15]
  {
    Numbers();
    WordsOf(HIGH, [3, 3, 3, 3, 3, 3, 0]);
    WordsOf(LOW, [1, 2, 3, 4, 5, 6]);
    WordsOf(FIRST, [0, 1, 2, 3, 4, 5, 6, 7]);
    WordsOf(SECOND, [8, 9, 10, 11, 12, 13, 14, 15]);
  }

  lemma MoreWords()
    ensures ToWords(THIRD) == [16, 17, 18, 19, 20, 21, 22, 23]
    ensures ToWords(FOURTH) == [24, 25, 26, 27, 28, 29, 30, 31]
    ensures ToWords(CHECKSUM) == [27, 0, 0, 0, 6, 14]
  {
    Numbers();
    WordsOf(THIRD, [16, 17, 18, 19, 20, 21, 22, 23]);
    WordsOf(FOURTH, [24, 25, 26, 27, 28, 29, 30, 31]);
    WordsOf(CHECKSUM, [27, 0, 0, 0, 6, 14]);
  }

  lemma FoldOn(c: bv32, v: seq<Sym>, u: seq<Sym>)
    ensures Fold(BECH32, c, ToWords(v + u)) == Fold(BECH32, Fold(BECH32, c, ToWords(v)), ToWords(u))
  {
    ToWordsAppend(v, u);
    FoldAppend(BECH32, c, ToWords(v), ToWords(u));
  }

  lemma RegisterEndsAtOne()
    ensures Fold(BECH32, 1, ToWords(HIGH + LOW + FIRST + SECOND + THIRD + FOURTH + CHECKSUM)) == 1
  {
    Words();
    MoreWords();
    Piece0();
    Piece1();
    Piece2();
    Piece3();
    Piece4();
    Piece5();
    Piece6();
    FoldOn(1, HIGH, LOW);
    FoldOn(1, HIGH + LOW, FIRST);
    FoldOn(1, HIGH + LOW + FIRST, SECOND);
    FoldOn(1, HIGH + LOW + FIRST + SECOND, THIRD);
    FoldOn(1, HIGH + LOW + FIRST + SECOND + THIRD, FOURTH);
    FoldOn(1, HIGH + LOW + FIRST + SECOND + THIRD + FOURTH, CHECKSUM);
  }

  lemma Creates(v: seq<Sym>, u: seq<Sym>)
    requires |u| == 6 && Fold(BECH32, 1, ToWords(v + u)) == 1
    ensures CODE.create(v) == u
  {
    CodeUnique();
    assert UniqueAt(CODE, v, u) && CODE.verify(v + u);
  }

  lemma Regrouped(a: seq<Sym>, b: seq<Sym>, c: seq<Sym>, d: seq<Sym>, e: seq<Sym>, f: seq<Sym>, g: seq<Sym>)
    ensures a + b + c + d + e + f + g == a + b + (c + d + e + f) + g
  {
  }

  lemma ChecksumCreated()
    ensures CODE.create(ExpandHrp(PREFIX) + SYMBOLS) == CHECKSUM
  {
    Expanded();
    RegisterEndsAtOne();
    Regrouped(HIGH, LOW, FIRST, SECOND, THIRD, FOURTH, CHECKSUM);
    Creates(HIGH + LOW + SYMBOLS, CHECKSUM);
  }

  lemma Charset()
    ensures CHARSET[0] == 'q' && CHARSET[1] == 'p' && CHARSET[2] == 'z' && CHARSET[3] == 'r'
    ensures CHARSET[4] == 'y' && CHARSET[5] == '9' && CHARSET[6] == 'x' && CHARSET[7] == '8'
    ensures CHARSET[8] == 'g' && CHARSET[9] == 'f' && CHARSET[10] == '2' && CHARSET[11] == 't'
    ensures CHARSET[12] == 'v' && CHARSET[13] == 'd' && CHARSET[14] == 'w' && CHARSET[15] == '0'
    ensures CHARSET[16] == 's' && CHARSET[17] == '3' && CHARSET[18] == 'j' && CHARSET[19] == 'n'
    ensures CHARSET[20] == '5' && CHARSET[21] == '4' && CHARSET[22] == 'k' && CHARSET[23] == 'h'
    ensures CHARSET[24] == 'c' && CHARSET[25] == 'e' && CHARSET[26] == '6' && CHARSET[27] == 'm'
    ensures CHARSET[28] == 'u' && CHARSET[29] == 'a' && CHARSET[30] == '7' && CHARSET[31] == 'l'
  {
  }

  lemma CharsOn(v: seq<Sym>, u: seq<Sym>)
    ensures Chars(v + u) == Chars(v) + Chars(u)
  {
  }

  lemma Rows()
    ensures Chars(FIRST) == "qpzry9x8" && Chars(SECOND) == "gf2tvdw0"
  {
    Charset();
  }

  lemma MoreRows()
    ensures Chars(THIRD) == "s3jn54kh" && Chars(FOURTH) == "ce6mua7l" && Chars(CHECKSUM) == "mqqqxw"
  {
    Charset();
  }

  lemma Written()
    ensures Chars(SYMBOLS + CHECKSUM) == TEXT
  {
    Rows();
    MoreRows();
    CharsOn(FIRST, SECOND);
    CharsOn(FIRST + SECOND, THIRD);
    CharsOn(FIRST + SECOND + THIRD, FOURTH);
    CharsOn(SYMBOLS, CHECKSUM);
  }

  lemma LegalPrefix()
    ensures Encodable(PREFIX, SYMBOLS) && !HasUpper(PREFIX)
  {
  }

  lemma Encodes(hrp: string, v: seq<Sym>, u: seq<Sym>, text: string)
    requires Encodable(hrp, v) && !HasUpper(hrp) && CODE.create(ExpandHrp(hrp) + v) == u && Chars(v + u) == text
    ensures Encode(CODE, hrp, v) == hrp + "1" + text && Decode(CODE, hrp + "1" + text) == (hrp, v)
  {
    EncodedIsDecoded(hrp, v);
  }

  /** The prefix and the 32 symbols in order make this string, and it decodes to them. */
  lemma AllSymbols()
    ensures !HasUpper(PREFIX) && Encode(CODE, PREFIX, SYMBOLS) == PREFIX + "1" + TEXT
    ensures Decode(CODE, PREFIX + "1" + TEXT) == (PREFIX, SYMBOLS)
  {
    LegalPrefix();
    ChecksumCreated();
    Written();
    Encodes(PREFIX, SYMBOLS, CHECKSUM, TEXT);
  }
}

/** The Bech32 code with its actual checksum. */
module Bech32Code {
  import opened Checksum
  import opened Register
  import opened Bech32
  import Bch
  import Roots

  /** A symbol is a byte, which a word takes in unchanged. */
  function ToWord(x: Sym): bv32 { (x as bv8) as bv32 }

  function FromWord(w: bv32): Sym { if w < 32 then SymbolOf(w as bv8) else 0 }

  function SymbolOf(b: bv8): Sym { if b < 32 then b as nat else 0 }

  lemma ToWordSymbol(x: Sym)
    ensures IsSymbol(ToWord(x))
  {
  }

  lemma SmallByte(x: Sym)
    ensures x as bv8 < 32 && SymbolOf(x as bv8) == x
  {
  }

  lemma ThroughWord(b: bv8)
    ensures (b as bv32) as bv8 == b
  {
  }

  lemma FromToWord(x: Sym)
    ensures FromWord(ToWord(x)) == x
  {
    ToWordSymbol(x);
    SmallByte(x);
    ThroughWord(x as bv8);
  }

  lemma ToFromWord(w: bv32)
    requires IsSymbol(w)
    ensures ToWord(FromWord(w)) == w
  {
  }

  function ToWords(v: seq<Sym>): (w: seq<bv32>)
    ensures |w| == |v|
  {
    seq(|v|, i requires 0 <= i < |v| => ToWord(v[i]))
  }

  function FromWords(w: seq<bv32>): (v: seq<Sym>)
    ensures |v| == |w|
  {
    seq(|w|, i requires 0 <= i < |w| => FromWord(w[i]))
  }

  function MakeCode(A: Algebra<bv32>): Code {
    Code((v: seq<Sym>) => FromWords(Create(A, ToWords(v))), (v: seq<Sym>) => PolyMod(A, ToWords(v)) == A.one)
  }

  const CODE := MakeCode(BECH32)

  lemma ToWordsSymbols(v: seq<Sym>)
    ensures Symbols(BECH32, ToWords(v))
  {
    forall i | 0 <= i < |v| ensures BECH32.symbol(ToWords(v)[i]) { ToWordSymbol(v[i]); }
  }

  lemma ToWordsAppend(v: seq<Sym>, u: seq<Sym>)
    ensures ToWords(v + u) == ToWords(v) + ToWords(u)
  {
  }

  lemma WordsEqual(u: seq<Sym>, w: seq<bv32>)
    requires Symbols(BECH32, w)
    ensures ToWords(u) == w <==> u == FromWords(w)
  {
    if ToWords(u) == w {
      forall i | 0 <= i < |u| ensures u[i] == FromWords(w)[i] {
        assert w[i] == ToWords(u)[i];
        FromToWord(u[i]);
      }
    }
    if u == FromWords(w) {
      forall i | 0 <= i < |w| ensures ToWords(u)[i] == w[i] {
        assert BECH32.symbol(w[i]);
        ToFromWord(w[i]);
      }
    }
  }

  /** Six symbols verify exactly when they are the ones that were created. */
  lemma CodeUnique()
    ensures Unique(CODE)
  {
    Bech32Lawful();
    forall v, u ensures UniqueAt(CODE, v, u) {
      UniqueFor(BECH32, v, u);
    }
  }

  lemma UniqueFor(A: Algebra<bv32>, v: seq<Sym>, u: seq<Sym>)
    requires A == BECH32 && Lawful(A)
    ensures UniqueAt(MakeCode(A), v, u)
  {
    if |u| == 6 {
      var x := ToWords(v);
      ToWordsSymbols(v);
      ToWordsSymbols(u);
      ToWordsAppend(v, u);
      ChecksumUnique(A, x, ToWords(u));
      CreateIs(A, x);
      WordsEqual(u, Create(A, x));
    }
  }

  /** An error confined to six consecutive symbols of an accepted string is rejected, whatever comes
      before and however long the string is. */
  lemma BurstRejected(head: seq<Sym>, v: seq<Sym>, w: seq<Sym>, i: nat)
    requires CODE.verify(head + v) && Burst(v, w, i)
    ensures !CODE.verify(head + w)
  {
    Bech32Lawful();
    ToWordsSymbols(head + v);
    ToWordsSymbols(head + w);
    BurstWords(head, v, w, i);
    BurstDetected(BECH32, ToWords(head + v), ToWords(head + w), |head| + i);
  }

  lemma BurstWords(head: seq<Sym>, v: seq<Sym>, w: seq<Sym>, i: nat)
    requires Burst(v, w, i)
    ensures Burst(ToWords(head + v), ToWords(head + w), |head| + i)
  {
    var a, b := ToWords(head + v), ToWords(head + w);
    var j :| 0 <= j < |v| && v[j] != w[j];
    FromToWord(v[j]);
    FromToWord(w[j]);
    assert a[|head| + j] == ToWord(v[j]) && b[|head| + j] == ToWord(w[j]);
    forall k | 0 <= k < |a| && !(|head| + i <= k < |head| + i + 6) ensures a[k] == b[k] {
      if k >= |head| { assert v[k - |head|] == w[k - |head|]; }
    }
  }

  /** So is an error in up to three symbols out of 1023 consecutive ones. */
  lemma ThreeErrorsRejected(head: seq<Sym>, v: seq<Sym>, w: seq<Sym>, i: nat, j: nat, l: nat)
    requires CODE.verify(head + v) && Bch.Scattered(v, w, i, j, l, 1023)
    ensures !CODE.verify(head + w)
  {
    ToWordsSymbols(head + v);
    ToWordsSymbols(head + w);
    ScatteredWords(head, v, w, i, j, l);
    Roots.ThreeErrorsDetected(ToWords(head + v), ToWords(head + w), |head| + i, |head| + j, |head| + l);
  }

  lemma ScatteredWords(head: seq<Sym>, v: seq<Sym>, w: seq<Sym>, i: nat, j: nat, l: nat)
    requires Bch.Scattered(v, w, i, j, l, 1023)
    ensures Bch.Scattered(ToWords(head + v), ToWords(head + w), |head| + i, |head| + j, |head| + l, 1023)
  {
    var a, b, n := ToWords(head + v), ToWords(head + w), |head|;
    var m :| 0 <= m < |v| && v[m] != w[m];
    FromToWord(v[m]);
    FromToWord(w[m]);
    assert a[n + m] == ToWord(v[m]) && b[n + m] == ToWord(w[m]);
    forall k | 0 <= k < |a| && k != n + i && k != n + j && k != n + l ensures a[k] == b[k] {
      if k >= n { assert v[k - n] == w[k - n]; }
    }
  }

  // ---------------------------------------------------------------- the strings of the code

  lemma EncodedIsDecoded(hrp: string, v: seq<Sym>)
    requires Encodable(hrp, v)
    ensures !HasUpper(hrp) && Decode(CODE, Encode(CODE, hrp, v)) == (hrp, v)
  {
    CodeUnique();
    DecodeEncode(CODE, hrp, v);
  }

  lemma DecodedIsEncoded(s: string)
    requires Decode(CODE, s).0 != ""
    ensures var (hrp, v) := Decode(CODE, s);
            Encodable(hrp, v) && !HasUpper(hrp) && Encode(CODE, hrp, v) == LowerCase(s)
  {
    CodeUnique();
    EncodeDecode(CODE, s);
  }
}

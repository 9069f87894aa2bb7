/** Bech32 strings (BIP-173): a human-readable part, a separator, and data with a checksum of six symbols. */
module Bech32 {
  import opened Common

  type Sym = x: nat | x < 32

  /** The way checksums are made and verified; each sees the expanded human-readable part and the data. */
  datatype Code = Code(create: seq<Sym> -> seq<Sym>, verify: seq<Sym> -> bool)

  ghost predicate UniqueAt(k: Code, v: seq<Sym>, u: seq<Sym>) {
    |k.create(v)| == 6 && (|u| == 6 ==> (k.verify(v + u) <==> u == k.create(v)))
  }

  /** Exactly the created checksum verifies. */
  ghost predicate Unique(k: Code) {
    forall v, u :: UniqueAt(k, v, u)
  }

  // ---------------------------------------------------------------- characters

  const CHARSET: string := "qpzry9x8" + "gf2tvdw0" + "s3jn54kh" + "ce6mua7l"

  function Lower(c: char): char {
    if 'A' <= c <= 'Z' then (c - 'A') + 'a' else c
  }

  function LowerCase(s: string): (r: string)
    ensures |r| == |s| && forall i | 0 <= i < |s| :: r[i] == Lower(s[i])
  {
    seq(|s|, i requires 0 <= i < |s| => Lower(s[i]))
  }

  /** The decoding table; a letter has the same entry in either case. */
  function Reverse(c: char): int {
    match Lower(c)
    case 'q' => 0
    case 'p' => 1
    case 'z' => 2
    case 'r' => 3
    case 'y' => 4
    case '9' => 5
    case 'x' => 6
    case '8' => 7
    case 'g' => 8
    case 'f' => 9
    case '2' => 10
    case 't' => 11
    case 'v' => 12
    case 'd' => 13
    case 'w' => 14
    case '0' => 15
    case 's' => 16
    case '3' => 17
    case 'j' => 18
    case 'n' => 19
    case '5' => 20
    case '4' => 21
    case 'k' => 22
    case 'h' => 23
    case 'c' => 24
    case 'e' => 25
    case '6' => 26
    case 'm' => 27
    case 'u' => 28
    case 'a' => 29
    case '7' => 30
    case 'l' => 31
    case _ => -1
  }

  predicate Printable(s: string) {
    forall i | 0 <= i < |s| :: '!' <= s[i] <= '~'
  }

  predicate HasLower(s: string) { exists i :: 0 <= i < |s| && 'a' <= s[i] <= 'z' }

  predicate HasUpper(s: string) { exists i :: 0 <= i < |s| && 'A' <= s[i] <= 'Z' }

  predicate Mixed(s: string) { HasLower(s) && HasUpper(s) }

  /** Position of the last `c`, or -1. */
  function LastIndex(s: string, c: char): (p: int)
    ensures -1 <= p < |s|
    ensures p >= 0 ==> s[p] == c
    ensures forall i | p < i < |s| :: s[i] != c
  {
    if s == [] then -1 else if s[|s| - 1] == c then |s| - 1 else LastIndex(s[..|s| - 1], c)
  }

  // ---------------------------------------------------------------- encoding and decoding

  function HighBits(hrp: string): (v: seq<Sym>)
    ensures |v| == |hrp|
  {
    seq(|hrp|, i requires 0 <= i < |hrp| => hrp[i] as int % 256 / 32)
  }

  function LowBits(hrp: string): (v: seq<Sym>)
    ensures |v| == |hrp|
  {
    seq(|hrp|, i requires 0 <= i < |hrp| => hrp[i] as int % 32)
  }

  function ExpandHrp(hrp: string): seq<Sym> {
    HighBits(hrp) + [0] + LowBits(hrp)
  }

  function Chars(v: seq<Sym>): (s: string)
    ensures |s| == |v|
  {
    seq(|v|, i requires 0 <= i < |v| => CHARSET[v[i]])
  }

  /** The encoder insists on a lower-case human-readable part. */
  function Encode(k: Code, hrp: string, v: seq<Sym>): string
    requires !HasUpper(hrp)
  {
    hrp + "1" + Chars(v + k.create(ExpandHrp(hrp) + v))
  }

  predicate InCharset(s: string) {
    forall i | 0 <= i < |s| :: Reverse(s[i]) != -1
  }

  function Values(s: string): (v: seq<Sym>)
    requires InCharset(s)
    ensures |v| == |s|
  {
    seq(|s|, i requires 0 <= i < |s| => Reverse(s[i]))
  }

  /** The parts of a string, before the checksum is looked at. */
  function Parse(s: string): Option<(string, seq<Sym>)> {
    if !Printable(s) || Mixed(s) || |s| > 90 then None else Split(s, LastIndex(s, '1'))
  }

  function Split(s: string, p: int): Option<(string, seq<Sym>)> {
    if p < 1 || p + 7 > |s| || !InCharset(s[p + 1..]) then None
    else Some((LowerCase(s[..p]), Values(s[p + 1..])))
  }

  /** An empty human-readable part stands for failure. */
  function Decode(k: Code, s: string): (string, seq<Sym>) {
    match Parse(s)
    case None => ("", [])
    case Some((hrp, v)) => if |v| >= 6 && k.verify(ExpandHrp(hrp) + v) then (hrp, v[..|v| - 6]) else ("", [])
  }

  // ---------------------------------------------------------------- the tables agree

  lemma ReverseCharset(x: Sym)
    ensures Reverse(CHARSET[x]) == x
  {
    if x < 8 {
    } else if x < 16 {
    } else if x < 24 {
    }
  }

  lemma CharsetPlain(x: Sym)
    ensures '!' <= CHARSET[x] <= '~' && !('A' <= CHARSET[x] <= 'Z') && CHARSET[x] != '1'
  {
  }

  lemma CharsetReverse(c: char)
    requires Reverse(c) != -1
    ensures CHARSET[Reverse(c)] == Lower(c)
  {
  }

  lemma ValuesOfChars(v: seq<Sym>)
    ensures InCharset(Chars(v)) && Values(Chars(v)) == v
  {
    forall i | 0 <= i < |v| ensures Reverse(Chars(v)[i]) == v[i] {
      ReverseCharset(v[i]);
    }
  }

  lemma CharsOfValues(s: string)
    requires InCharset(s)
    ensures Chars(Values(s)) == LowerCase(s)
  {
    forall i | 0 <= i < |s| ensures Chars(Values(s))[i] == Lower(s[i]) {
      CharsetReverse(s[i]);
    }
  }

  predicate Plain(s: string) {
    Printable(s) && forall i | 0 <= i < |s| :: !('A' <= s[i] <= 'Z')
  }

  lemma CharsPlain(v: seq<Sym>)
    ensures Plain(Chars(v)) && '1' !in Chars(v)
  {
    forall i | 0 <= i < |v|
      ensures '!' <= Chars(v)[i] <= '~' && !('A' <= Chars(v)[i] <= 'Z') && Chars(v)[i] != '1'
    {
      CharsetPlain(v[i]);
    }
  }

  // ---------------------------------------------------------------- printer and parser

  /** What BIP-173 allows in front of the separator, in lower case; a '1' is allowed. */
  predicate Legal(hrp: string) { hrp != [] && Plain(hrp) }

  predicate Encodable(hrp: string, v: seq<Sym>) { Legal(hrp) && |hrp| + 1 + |v| + 6 <= 90 }

  lemma PlainHasNoUpper(s: string)
    requires Plain(s)
    ensures !HasUpper(s) && LowerCase(s) == s
  {
  }

  lemma OnesAfter(hrp: string, rest: string, s: string)
    requires '1' !in rest && s == hrp + "1" + rest
    ensures s[|hrp|] == '1' && forall i | |hrp| < i < |s| :: s[i] != '1'
  {
    forall i | |hrp| < i < |s| ensures s[i] != '1' {
      assert s[i] == rest[i - |hrp| - 1];
    }
  }

  /** The separator is the last '1', whatever the human-readable part contains. */
  lemma LastSeparator(hrp: string, rest: string, s: string)
    requires '1' !in rest && s == hrp + "1" + rest
    ensures LastIndex(s, '1') == |hrp|
  {
    OnesAfter(hrp, rest, s);
    LastIs(s, '1', |hrp|);
  }

  lemma LastIs(s: string, c: char, p: nat)
    requires p < |s| && s[p] == c && forall i | p < i < |s| :: s[i] != c
    ensures LastIndex(s, c) == p
  {
  }

  lemma PlainConcat(a: string, b: string)
    requires Plain(a) && Plain(b)
    ensures Plain(a + "1" + b)
  {
  }

  lemma DecodeParts(k: Code, hrp: string, rest: string)
    requires Legal(hrp) && Plain(rest) && '1' !in rest && InCharset(rest) && 6 <= |rest| && |hrp| + 1 + |rest| <= 90
    ensures Decode(k, hrp + "1" + rest) ==
      if k.verify(ExpandHrp(hrp) + Values(rest)) then (hrp, Values(rest)[..|rest| - 6]) else ("", [])
  {
    var s := hrp + "1" + rest;
    PlainConcat(hrp, rest);
    PlainHasNoUpper(s);
    PlainHasNoUpper(hrp);
    LastSeparator(hrp, rest, s);
    assert s[|hrp| + 1..] == rest && s[..|hrp|] == hrp;
  }

  lemma DecodeChars(k: Code, hrp: string, w: seq<Sym>)
    requires Legal(hrp) && 6 <= |w| && |hrp| + 1 + |w| <= 90
    ensures Decode(k, hrp + "1" + Chars(w)) ==
      if k.verify(ExpandHrp(hrp) + w) then (hrp, w[..|w| - 6]) else ("", [])
  {
    CharsPlain(w);
    ValuesOfChars(w);
    DecodeParts(k, hrp, Chars(w));
  }

  lemma Appended(k: Code, e: seq<Sym>, v: seq<Sym>, c: seq<Sym>)
    requires UniqueAt(k, e + v, c) && c == k.create(e + v)
    ensures k.verify(e + (v + c)) && |c| == 6 && (v + c)[..|v + c| - 6] == v
  {
    assert e + (v + c) == e + v + c;
  }

  /** Decoding an encoded string gives back the human-readable part and the data. */
  lemma DecodeEncode(k: Code, hrp: string, v: seq<Sym>)
    requires Unique(k) && Encodable(hrp, v)
    ensures !HasUpper(hrp) && Decode(k, Encode(k, hrp, v)) == (hrp, v)
  {
    var e := ExpandHrp(hrp);
    var c := k.create(e + v);
    assert UniqueAt(k, e + v, c);
    Appended(k, e, v, c);
    PlainHasNoUpper(hrp);
    DecodeChars(k, hrp, v + c);
  }

  lemma LowerPlain(s: string)
    requires Printable(s)
    ensures Plain(LowerCase(s))
  {
  }

  /** Encoding what was decoded gives back the string, in lower case. */
  lemma EncodeDecode(k: Code, s: string)
    requires Unique(k) && Decode(k, s).0 != ""
    ensures var (hrp, v) := Decode(k, s);
            Encodable(hrp, v) && !HasUpper(hrp) && Encode(k, hrp, v) == LowerCase(s)
  {
    var p := LastIndex(s, '1');
    var (hrp, v) := Decode(k, s);
    LowerPlain(s[..p]);
    PlainHasNoUpper(hrp);
    var all := Values(s[p + 1..]);
    var c := all[|v|..];
    assert all == v + c;
    assert ExpandHrp(hrp) + all == ExpandHrp(hrp) + v + c;
    assert UniqueAt(k, ExpandHrp(hrp) + v, c);
    CharsOfValues(s[p + 1..]);
    assert Lower('1') == '1';
    assert LowerCase(s) == LowerCase(s[..p]) + "1" + LowerCase(s[p + 1..]);
  }

  lemma LowerKeepsShape(s: string)
    ensures Printable(LowerCase(s)) ==> Printable(s)
    ensures LastIndex(LowerCase(s), '1') == LastIndex(s, '1')
  {
    var l := LowerCase(s);
    assert forall i | 0 <= i < |s| :: l[i] == '1' <==> s[i] == '1';
  }

  lemma LowerCaseReverse(c: char)
    ensures Reverse(Lower(c)) == Reverse(c)
  {
  }

  lemma LowerKeepsValues(s: string)
    ensures InCharset(LowerCase(s)) <==> InCharset(s)
    ensures InCharset(s) ==> Values(LowerCase(s)) == Values(s)
  {
    forall i | 0 <= i < |s| ensures Reverse(LowerCase(s)[i]) == Reverse(s[i]) {
      LowerCaseReverse(s[i]);
    }
  }

  lemma LowerSplit(s: string, p: nat)
    requires p < |s|
    ensures LowerCase(s)[..p] == LowerCase(s[..p]) && LowerCase(s)[p + 1..] == LowerCase(s[p + 1..])
  {
  }

  lemma SplitLower(s: string, p: int)
    requires Printable(s)
    ensures Split(s, p) == Split(LowerCase(s), p)
  {
    if 1 <= p && p + 7 <= |s| {
      LowerSplit(s, p);
      LowerKeepsValues(s[p + 1..]);
      LowerPlain(s[..p]);
      PlainHasNoUpper(LowerCase(s[..p]));
    }
  }

  /** A string is read like its lower-case form, unless it mixes cases. */
  lemma ParseLower(s: string)
    requires !Mixed(s) && Printable(LowerCase(s))
    ensures Parse(s) == Parse(LowerCase(s))
  {
    LowerKeepsShape(s);
    LowerPlain(s);
    PlainHasNoUpper(LowerCase(s));
    SplitLower(s, LastIndex(s, '1'));
  }

  /** A string is accepted exactly when its lower-case form is an encoding and it does not mix cases. */
  lemma Accepted(k: Code, s: string)
    requires Unique(k)
    ensures Decode(k, s).0 != "" <==>
      !Mixed(s) && exists hrp, v :: Encodable(hrp, v) && !HasUpper(hrp) && Encode(k, hrp, v) == LowerCase(s)
  {
    if Decode(k, s).0 != "" {
      EncodeDecode(k, s);
      var (hrp, v) := Decode(k, s);
      assert Encodable(hrp, v) && !HasUpper(hrp) && Encode(k, hrp, v) == LowerCase(s);
    } else if !Mixed(s) {
      if hrp, v :| Encodable(hrp, v) && !HasUpper(hrp) && Encode(k, hrp, v) == LowerCase(s) {
        CharsPlain(v + k.create(ExpandHrp(hrp) + v));
        PlainConcat(hrp, Chars(v + k.create(ExpandHrp(hrp) + v)));
        DecodeEncode(k, hrp, v);
        ParseLower(s);
      }
    }
  }
}

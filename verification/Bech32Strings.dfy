/** The encoder and the decoder of Bech32 strings as the code runs them. */
module Bech32Strings {
  import opened Common
  import opened Checksum
  import opened Register
  import opened Bech32
  import opened Bech32Code
  import opened Bech32Impl
  import Gf32

  /** Both halves of the expanded human-readable part are filled in one pass. */
  method ExpandHrpInPlace(hrp: string) returns (v: seq<Sym>)
    ensures v == ExpandHrp(hrp)
  {
    var n := |hrp|;
    var ret := new Sym[2 * n + 1](_ => 0);
    for i := 0 to n
      invariant forall k | 0 <= k < i :: ret[k] == HighBits(hrp)[k]
      invariant forall k | n + 1 <= k < n + 1 + i :: ret[k] == LowBits(hrp)[k - n - 1]
    {
      ret[i] := hrp[i] as int % 256 / 32;
      ret[i + n + 1] := hrp[i] as int % 32;
    }
    ret[n] := 0;
    v := ret[..];
    assert v[..n] == HighBits(hrp) && v[n + 1..] == LowBits(hrp);
    assert v == v[..n] + [v[n]] + v[n + 1..];
  }

  method VerifyChecksum(hrp: string, values: seq<Sym>) returns (ok: bool)
    ensures ok == CODE.verify(ExpandHrp(hrp) + values)
  {
    var enc := ExpandHrpInPlace(hrp);
    var mod := ComputePolyMod(ToWords(enc + values));
    ok := mod == 1;
  }

  /** Five bits of `mod`, after a right shift by 5 * (5 - i). */
  function Group(mod: bv32, i: nat): bv32
    requires i < 6
  {
    if i == 0 then (mod >> 25) & 31 else if i == 1 then (mod >> 20) & 31 else if i == 2 then (mod >> 15) & 31
    else if i == 3 then (mod >> 10) & 31 else if i == 4 then (mod >> 5) & 31 else mod & 31
  }

  lemma GroupIs(mod: bv32, i: nat, c: seq<bv32>)
    requires i < 6 && c == Gf32.Coefficients(mod)
    ensures Group(mod, i) == c[i]
  {
  }

  method SplitGroups(mod: bv32) returns (ret: seq<Sym>)
    ensures ret == FromWords(Unpack(BECH32, mod, 6))
  {
    Gf32.UnpackIs(mod);
    ret := [];
    for i := 0 to 6
      invariant |ret| == i && forall k | 0 <= k < i :: ret[k] == FromWord(Gf32.Coefficients(mod)[k])
    {
      GroupIs(mod, i, Gf32.Coefficients(mod));
      ret := ret + [FromWord(Group(mod, i))];
    }
  }

  lemma PadWords(v: seq<Sym>)
    ensures ToWords(v + [0, 0, 0, 0, 0, 0]) == ToWords(v) + Zeros(BECH32, 6)
  {
    ToWordsAppend(v, [0, 0, 0, 0, 0, 0]);
    assert ToWords([0, 0, 0, 0, 0, 0]) == Zeros(BECH32, 6);
  }

  method CreateChecksum(hrp: string, values: seq<Sym>) returns (ret: seq<Sym>)
    ensures ret == CODE.create(ExpandHrp(hrp) + values)
  {
    var enc := ExpandHrpInPlace(hrp);
    enc := enc + values;
    PadWords(enc);
    var mod := ComputePolyMod(ToWords(enc + [0, 0, 0, 0, 0, 0]));
    ret := SplitGroups(Xor(mod, 1));
  }

  method EncodeString(hrp: string, values: seq<Sym>) returns (s: string)
    requires !HasUpper(hrp)
    ensures s == Encode(CODE, hrp, values)
  {
    var checksum := CreateChecksum(hrp, values);
    s := AppendChars(hrp + "1", values + checksum);
  }

  method AppendChars(start: string, v: seq<Sym>) returns (s: string)
    ensures s == start + Chars(v)
  {
    s := start;
    for i := 0 to |v|
      invariant s == start + Chars(v)[..i]
    {
      s := s + [CHARSET[v[i]]];
      assert Chars(v)[..i + 1] == Chars(v)[..i] + [CHARSET[v[i]]];
    }
  }

  /** Whether all characters are printable, and which cases occur. */
  method Scan(s: string) returns (printable: bool, lower: bool, upper: bool)
    ensures printable == Printable(s)
    ensures printable ==> lower == HasLower(s) && upper == HasUpper(s)
  {
    lower, upper := false, false;
    for i := 0 to |s|
      invariant Printable(s[..i]) && lower == HasLower(s[..i]) && upper == HasUpper(s[..i])
    {
      var c := s[i];
      assert s[..i + 1] == s[..i] + [c];
      ScanStep(s[..i], c);
      if 'a' <= c <= 'z' {
        lower := true;
      } else if 'A' <= c <= 'Z' {
        upper := true;
      } else if c < '!' || c > '~' {
        return false, lower, upper;
      }
    }
    assert s[..|s|] == s;
    printable := true;
  }

  lemma ScanStep(t: string, c: char)
    ensures Printable(t + [c]) <==> Printable(t) && '!' <= c <= '~'
    ensures HasLower(t + [c]) <==> HasLower(t) || 'a' <= c <= 'z'
    ensures HasUpper(t + [c]) <==> HasUpper(t) || 'A' <= c <= 'Z'
  {
    var u := t + [c];
    assert u[|t|] == c;
    assert forall i | 0 <= i < |t| :: u[i] == t[i];
  }

  method FindLast(s: string, c: char) returns (p: int)
    ensures p == LastIndex(s, c)
  {
    p := |s| - 1;
    while p >= 0 && s[p] != c
      invariant -1 <= p < |s| && forall i | p < i < |s| :: s[i] != c
    {
      p := p - 1;
    }
  }

  method ReadValues(s: string) returns (ok: bool, v: seq<Sym>)
    ensures ok == InCharset(s) && (ok ==> v == Values(s))
  {
    v := [];
    for i := 0 to |s|
      invariant InCharset(s[..i]) && |v| == i && forall k | 0 <= k < i :: v[k] == Reverse(s[k])
    {
      var rev := Reverse(s[i]);
      if rev == -1 {
        return false, v;
      }
      v := v + [rev];
    }
    assert s[..|s|] == s;
    ok := true;
  }

  method ToLower(s: string) returns (r: string)
    ensures r == LowerCase(s)
  {
    r := [];
    for i := 0 to |s|
      invariant |r| == i && forall k | 0 <= k < i :: r[k] == Lower(s[k])
    {
      r := r + [Lower(s[i])];
    }
  }

  method ParseString(s: string) returns (r: Option<(string, seq<Sym>)>)
    ensures r == Parse(s)
  {
    var printable, lower, upper := Scan(s);
    if !printable || (lower && upper) {
      return None;
    }
    var pos := FindLast(s, '1');
    if |s| > 90 || pos == -1 || pos == 0 || pos + 7 > |s| {
      return None;
    }
    var ok, values := ReadValues(s[pos + 1..]);
    if !ok {
      return None;
    }
    var hrp := ToLower(s[..pos]);
    return Some((hrp, values));
  }

  method DecodeString(s: string) returns (hrp: string, data: seq<Sym>)
    ensures (hrp, data) == Decode(CODE, s)
  {
    var r := ParseString(s);
    if r.None? {
      return "", [];
    }
    var (part, values) := r.value;
    var ok := VerifyChecksum(part, values);
    if !ok {
      return "", [];
    }
    return part, values[..|values| - 6];
  }
}

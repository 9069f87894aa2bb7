/** Bech32 as the code runs it. */
module Bech32Impl {
  import opened Checksum
  import opened Register
  import opened Bech32
  import opened Bech32Code

  // ---------------------------------------------------------------- the checksum loop

  /** The words of the machine: adding, making room for a symbol, reading the top bits, testing a bit, and
      the five constants. */
  datatype Machine = Machine(
    add: (bv32, bv32) -> bv32,
    room: bv32 -> bv32,
    top: bv32 -> bv32,
    bit: (bv32, nat) -> bool,
    word: nat -> bv32)

  predicate TestBit(c0: bv32, n: nat) {
    c0 & (if n == 0 then 1 else if n == 1 then 2 else if n == 2 then 4 else if n == 3 then 8 else 16) != 0
  }

  function Constant(n: nat): bv32 {
    if n == 0 then 0x3b6a57b2 else if n == 1 then 0x26508e6d else if n == 2 then 0x1ea119fa
    else if n == 3 then 0x3d4233dd else 0x2a1462b3
  }

  const MACHINE := Machine(Xor, Room, Top, TestBit, Constant)

  /** The register after looking at bits 0 to n - 1. */
  function Conditional(m: Machine, s: bv32, c0: bv32, n: nat): bv32 {
    if n == 0 then s
    else if m.bit(c0, n - 1) then m.add(Conditional(m, s, c0, n - 1), m.word(n - 1))
    else Conditional(m, s, c0, n - 1)
  }

  method TakeIn(m: Machine, c: bv32, v: bv32) returns (r: bv32)
    ensures r == Conditional(m, m.add(m.room(c), v), m.top(c), 5)
  {
    var c0 := m.top(c);
    r := m.add(m.room(c), v);
    ghost var s := r;
    for n := 0 to 5
      invariant r == Conditional(m, s, c0, n)
    {
      if m.bit(c0, n) { r := m.add(r, m.word(n)); }
    }
  }

  // ---------------------------------------------------------------- the loop folds

  lemma Mask0(c0: bv32)
    ensures c0 & 1 != 0 ==> 0x3b6a57b2 & (0 - (c0 & 1)) == 0x3b6a57b2
    ensures c0 & 1 == 0 ==> 0x3b6a57b2 & (0 - (c0 & 1)) == 0
  {
  }

  lemma Mask1(c0: bv32)
    ensures c0 & 2 != 0 ==> 0x26508e6d & (0 - ((c0 >> 1) & 1)) == 0x26508e6d
    ensures c0 & 2 == 0 ==> 0x26508e6d & (0 - ((c0 >> 1) & 1)) == 0
  {
  }

  lemma Mask2(c0: bv32)
    ensures c0 & 4 != 0 ==> 0x1ea119fa & (0 - ((c0 >> 2) & 1)) == 0x1ea119fa
    ensures c0 & 4 == 0 ==> 0x1ea119fa & (0 - ((c0 >> 2) & 1)) == 0
  {
  }

  lemma Mask3(c0: bv32)
    ensures c0 & 8 != 0 ==> 0x3d4233dd & (0 - ((c0 >> 3) & 1)) == 0x3d4233dd
    ensures c0 & 8 == 0 ==> 0x3d4233dd & (0 - ((c0 >> 3) & 1)) == 0
  {
  }

  lemma Mask4(c0: bv32)
    ensures c0 & 16 != 0 ==> 0x2a1462b3 & (0 - ((c0 >> 4) & 1)) == 0x2a1462b3
    ensures c0 & 16 == 0 ==> 0x2a1462b3 & (0 - ((c0 >> 4) & 1)) == 0
  {
  }

  function Term(c0: bv32, n: nat): bv32 {
    if n == 0 then 0x3b6a57b2 & (0 - (c0 & 1))
    else if n == 1 then 0x26508e6d & (0 - ((c0 >> 1) & 1))
    else if n == 2 then 0x1ea119fa & (0 - ((c0 >> 2) & 1))
    else if n == 3 then 0x3d4233dd & (0 - ((c0 >> 3) & 1))
    else 0x2a1462b3 & (0 - ((c0 >> 4) & 1))
  }

  lemma TermIs(c0: bv32, n: nat)
    requires n < 5
    ensures TestBit(c0, n) ==> Term(c0, n) == Constant(n)
    ensures !TestBit(c0, n) ==> Term(c0, n) == 0
  {
    if n == 0 { Mask0(c0); }
    else if n == 1 { Mask1(c0); }
    else if n == 2 { Mask2(c0); }
    else if n == 3 { Mask3(c0); }
    else { Mask4(c0); }
  }

  lemma GeneratorIs(c0: bv32)
    ensures Generator(c0) == Xor(Xor(Xor(Xor(Term(c0, 0), Term(c0, 1)), Term(c0, 2)), Term(c0, 3)), Term(c0, 4))
  {
  }

  type Terms = nat -> bv32

  function SumTerms(A: Algebra<bv32>, t: Terms, n: nat): bv32 {
    if n == 0 then A.zero else A.add(SumTerms(A, t, n - 1), t(n - 1))
  }

  lemma Associate(A: Algebra<bv32>, a: bv32, b: bv32, c: bv32)
    requires Group(A)
    ensures A.add(A.add(a, b), c) == A.add(a, A.add(b, c))
  {
    assert A.Regroups(a, b, A.zero, c) && A.Cancels(c, c) && A.Cancels(a, a);
  }

  ghost predicate Selects(A: Algebra<bv32>, m: Machine, c0: bv32, t: Terms, n: nat) {
    forall i | 0 <= i < n :: t(i) == if m.bit(c0, i) then m.word(i) else A.zero
  }

  lemma {:induction false} ConditionalIs(A: Algebra<bv32>, m: Machine, s: bv32, c0: bv32, t: Terms, n: nat)
    requires Group(A) && m.add == A.add && Selects(A, m, c0, t, n)
    ensures Conditional(m, s, c0, n) == A.add(s, SumTerms(A, t, n))
  {
    assert A.Cancels(s, s);
    if n > 0 {
      ConditionalIs(A, m, s, c0, t, n - 1);
      var u := SumTerms(A, t, n - 1);
      Associate(A, s, u, t(n - 1));
      assert A.Cancels(u, u);
    }
  }

  lemma FiveTerms(A: Algebra<bv32>, t: Terms)
    requires Group(A)
    ensures SumTerms(A, t, 5) == A.add(A.add(A.add(A.add(t(0), t(1)), t(2)), t(3)), t(4))
  {
    assert SumTerms(A, t, 1) == A.add(A.zero, t(0));
    assert A.Cancels(t(0), t(0));
    assert SumTerms(A, t, 3) == A.add(A.add(t(0), t(1)), t(2));
  }

  lemma SelectsTerms(c0: bv32, t: Terms)
    requires forall i :: t(i) == Term(c0, i)
    ensures Selects(BECH32, MACHINE, c0, t, 5)
  {
    forall i | 0 <= i < 5 ensures t(i) == if MACHINE.bit(c0, i) then MACHINE.word(i) else BECH32.zero {
      TermIs(c0, i);
    }
  }

  lemma GeneratorSum(A: Algebra<bv32>, c0: bv32, t: Terms)
    requires A == BECH32 && Group(A) && forall i :: t(i) == Term(c0, i)
    ensures SumTerms(A, t, 5) == Generator(c0)
  {
    FiveTerms(A, t);
    GeneratorIs(c0);
  }

  /** Looking at the five top bits adds the generator words of the shift. */
  lemma StepIs(A: Algebra<bv32>, c: bv32, v: bv32)
    requires A == BECH32 && Group(A)
    ensures Conditional(MACHINE, Xor(Room(c), v), Top(c), 5) == A.add(A.shift(c), v)
  {
    var t: Terms := (i: nat) => Term(Top(c), i);
    SelectsTerms(Top(c), t);
    ConditionalIs(A, MACHINE, Xor(Room(c), v), Top(c), t, 5);
    GeneratorSum(A, Top(c), t);
    Exchange(A, Room(c), v, Generator(Top(c)));
  }

  lemma Exchange(A: Algebra<bv32>, a: bv32, b: bv32, c: bv32)
    requires Group(A)
    ensures A.add(A.add(a, b), c) == A.add(A.add(a, c), b)
  {
    assert A.Regroups(a, b, c, A.zero) && A.Cancels(b, b) && A.Cancels(c, c);
  }

  ghost predicate StepsAt(A: Algebra<bv32>, m: Machine, c: bv32, v: bv32) {
    Conditional(m, m.add(m.room(c), v), m.top(c), 5) == A.add(A.shift(c), v)
  }

  ghost predicate Steps(A: Algebra<bv32>, m: Machine) {
    forall c, v :: StepsAt(A, m, c, v)
  }

  lemma MachineSteps()
    ensures Steps(BECH32, MACHINE)
  {
    Bech32Group();
    forall c, v ensures StepsAt(BECH32, MACHINE, c, v) { StepIs(BECH32, c, v); }
  }

  method RunPolyMod(A: Algebra<bv32>, m: Machine, v: seq<bv32>) returns (c: bv32)
    requires Steps(A, m)
    ensures c == PolyMod(A, v)
  {
    c := A.one;
    for i := 0 to |v|
      invariant c == Fold(A, A.one, v[..i])
    {
      assert StepsAt(A, m, c, v[i]);
      c := TakeIn(m, c, v[i]);
      assert v[..i + 1][..i] == v[..i];
    }
    assert v[..|v|] == v;
  }

  method ComputePolyMod(v: seq<bv32>) returns (c: bv32)
    ensures c == PolyMod(BECH32, v)
  {
    MachineSteps();
    c := RunPolyMod(BECH32, MACHINE, v);
  }
}

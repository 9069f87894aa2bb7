/** The 30-bit register of the Bech32 checksum. */
module Register {
  import opened Checksum

  /** The words k(x), {2}k(x), {4}k(x), {8}k(x) and {16}k(x) for the bits of c0 that are set, where k(x) is
      x^6 modulo the generator polynomial. Negating a bit gives a mask of zeros or of ones. */
  function Generator(c0: bv32): bv32 {
    (0x3b6a57b2 & (0 - (c0 & 1))) ^ (0x26508e6d & (0 - ((c0 >> 1) & 1))) ^ (0x1ea119fa & (0 - ((c0 >> 2) & 1))) ^
    (0x3d4233dd & (0 - ((c0 >> 3) & 1))) ^ (0x2a1462b3 & (0 - ((c0 >> 4) & 1)))
  }

  function Room(c: bv32): bv32 { (c & 0x1ffffff) << 5 }

  function Top(c: bv32): bv32 { c >> 25 }

  function Composite(add: (bv32, bv32) -> bv32, room: bv32 -> bv32, top: bv32 -> bv32, gen: bv32 -> bv32)
    : bv32 -> bv32
  {
    c => add(room(c), gen(top(c)))
  }

  function Shift(c: bv32): bv32 { Xor(Room(c), Generator(Top(c))) }

  function Cap(k: nat): bv32
    requires k <= 6
  {
    if k == 0 then 1 else if k == 1 then 0x20 else if k == 2 then 0x400 else if k == 3 then 0x8000
    else if k == 4 then 0x10_0000 else if k == 5 then 0x200_0000 else 0x4000_0000
  }

  function Xor(a: bv32, b: bv32): bv32 { a ^ b }

  predicate IsSymbol(c: bv32) { c < 32 }

  predicate Fits(c: bv32, k: nat) { k <= 6 && c < Cap(k) }

  function High(c: bv32): bv32 { c >> 5 }

  function Low(c: bv32): bv32 { c & 31 }

  const BECH32: Algebra<bv32> := Algebra(0, 1, Xor, Composite(Xor, Room, Top, Generator), IsSymbol, Fits, High, Low)

  // ---------------------------------------------------------------- facts about machine words

  lemma XorRegroups(a: bv32, b: bv32, c: bv32, d: bv32)
    ensures Xor(Xor(a, b), Xor(c, d)) == Xor(Xor(a, c), Xor(b, d))
  {
    calc {
      Xor(Xor(a, b), Xor(c, d));
      { assert Xor(a, b) == a ^ b; assert Xor(c, d) == c ^ d; }
      Xor(a ^ b, c ^ d);
      (a ^ b) ^ (c ^ d);
      (a ^ c) ^ (b ^ d);
      Xor(a ^ c, b ^ d);
      { assert Xor(a, c) == a ^ c; assert Xor(b, d) == b ^ d; }
      Xor(Xor(a, c), Xor(b, d));
    }
  }

  lemma XorCancels(a: bv32, b: bv32)
    ensures a ^ 0 == a && 0 ^ a == a && a ^ a == 0
    ensures a ^ b == 0 ==> a == b
  {
  }

  lemma XorSmall(a: bv32, b: bv32)
    ensures a < 32 ==> a < 0x4000_0000
    ensures a < 32 && b < 32 ==> a ^ b < 32
    ensures a < 0x4000_0000 && b < 0x4000_0000 ==> a ^ b < 0x4000_0000
  {
  }

  lemma GeneratorBits(a: bv32, b: bv32)
    ensures Generator(a ^ b) == Generator(a) ^ Generator(b)
  {
  }

  lemma GeneratorXor(a: bv32, b: bv32)
    ensures Generator(Xor(a, b)) == Xor(Generator(a), Generator(b))
  {
    calc {
      Generator(Xor(a, b));
      { assert Xor(a, b) == a ^ b; }
      Generator(a ^ b);
      { GeneratorBits(a, b); }
      Generator(a) ^ Generator(b);
      Xor(Generator(a), Generator(b));
    }
  }

  lemma RoomBits(a: bv32, b: bv32)
    ensures Room(a ^ b) == Room(a) ^ Room(b)
  {
  }

  lemma RoomXor(a: bv32, b: bv32)
    ensures Room(Xor(a, b)) == Xor(Room(a), Room(b))
  {
    calc {
      Room(Xor(a, b));
      { assert Xor(a, b) == a ^ b; }
      Room(a ^ b);
      { RoomBits(a, b); }
      Room(a) ^ Room(b);
      Xor(Room(a), Room(b));
    }
  }

  lemma TopBits(a: bv32, b: bv32)
    ensures Top(a ^ b) == Top(a) ^ Top(b)
  {
  }

  lemma TopXor(a: bv32, b: bv32)
    ensures Top(Xor(a, b)) == Xor(Top(a), Top(b))
  {
    calc {
      Top(Xor(a, b));
      { assert Xor(a, b) == a ^ b; }
      Top(a ^ b);
      { TopBits(a, b); }
      Top(a) ^ Top(b);
      Xor(Top(a), Top(b));
    }
  }

  lemma ShiftKeeps(c: bv32)
    requires c < 0x4000_0000
    ensures Shift(c) < 0x4000_0000 && (Shift(c) == 0 ==> c == 0)
  {
  }

  lemma ShiftIsRoom(c: bv32)
    requires c < 0x200_0000
    ensures Shift(c) == c << 5
  {
  }

  lemma CapIsRoom(c: bv32, k: nat)
    requires k < 6 && c < Cap(k)
    ensures c < 0x200_0000
  {
  }

  lemma Push(x: bv32, u: bv32, k: nat)
    requires k < 6 && x < Cap(k) && u < 32
    ensures (x << 5) ^ u < Cap(k + 1)
  {
  }

  lemma Separate(x: bv32, u: bv32, y: bv32, w: bv32)
    requires x < 0x200_0000 && y < 0x200_0000 && u < 32 && w < 32
    requires (x << 5) ^ u == (y << 5) ^ w
    ensures x == y && u == w
  {
  }

  // ---------------------------------------------------------------- the register obeys the laws

  ghost predicate Additive(add: (bv32, bv32) -> bv32, f: bv32 -> bv32) {
    forall a, b :: AdditiveAt(add, f, a, b)
  }

  ghost predicate AdditiveAt(add: (bv32, bv32) -> bv32, f: bv32 -> bv32, a: bv32, b: bv32) {
    f(add(a, b)) == add(f(a), f(b))
  }

  lemma CompositeDistributes(A: Algebra<bv32>, room: bv32 -> bv32, top: bv32 -> bv32, gen: bv32 -> bv32,
                             a: bv32, b: bv32)
    requires A.shift == Composite(A.add, room, top, gen)
    requires Additive(A.add, room) && Additive(A.add, top) && Additive(A.add, gen)
    requires forall a, b, c, d :: A.Regroups(a, b, c, d)
    ensures A.Distributes(a, b)
  {
    assert AdditiveAt(A.add, room, a, b) && AdditiveAt(A.add, top, a, b) && AdditiveAt(A.add, gen, top(a), top(b));
    assert A.Regroups(room(a), room(b), gen(top(a)), gen(top(b)));
  }

  lemma RoomAdditive()
    ensures Additive(Xor, Room)
  {
    forall a, b ensures AdditiveAt(Xor, Room, a, b) { RoomXor(a, b); }
  }

  lemma TopAdditive()
    ensures Additive(Xor, Top)
  {
    forall a, b ensures AdditiveAt(Xor, Top, a, b) { TopXor(a, b); }
  }

  lemma GeneratorAdditive()
    ensures Additive(Xor, Generator)
  {
    forall a, b ensures AdditiveAt(Xor, Generator, a, b) { GeneratorXor(a, b); }
  }

  lemma RegroupsAll()
    ensures forall a, b, c, d :: BECH32.Regroups(a, b, c, d)
  {
    forall a, b, c, d ensures BECH32.Regroups(a, b, c, d) { XorRegroups(a, b, c, d); }
  }

  lemma CancelsAll()
    ensures forall a, b :: BECH32.Cancels(a, b)
  {
    forall a, b ensures BECH32.Cancels(a, b) { XorCancels(a, b); }
  }

  lemma Bech32Group()
    ensures Group(BECH32)
  {
    RegroupsAll();
    CancelsAll();
    RoomAdditive();
    TopAdditive();
    GeneratorAdditive();
    forall a, b ensures BECH32.Distributes(a, b) { CompositeDistributes(BECH32, Room, Top, Generator, a, b); }
  }

  lemma ShiftIs(c: bv32)
    ensures BECH32.shift(c) == Shift(c)
  {
  }

  lemma Pushes(c: bv32, u: bv32, k: nat)
    ensures BECH32.Pushes(c, u, k)
  {
    if k < 6 && Fits(c, k) && IsSymbol(u) {
      CapIsRoom(c, k);
      ShiftIsRoom(c);
      Push(c, u, k);
    }
  }

  lemma Separates(c: bv32, u: bv32, d: bv32, w: bv32, k: nat)
    ensures BECH32.Separates(c, u, d, w, k)
  {
    if k < 6 && Fits(c, k) && Fits(d, k) && IsSymbol(u) && IsSymbol(w) && Xor(Shift(c), u) == Xor(Shift(d), w) {
      CapIsRoom(c, k);
      CapIsRoom(d, k);
      ShiftIsRoom(c);
      ShiftIsRoom(d);
      Separate(c, u, d, w);
    }
  }

  lemma Halves(c: bv32, s: bv32, l: bv32)
    requires s == (c >> 5) << 5 && l == c & 31
    ensures s ^ l == c
  {
  }

  lemma ShiftHigh(c: bv32)
    requires c >> 5 < 0x200_0000
    ensures Shift(High(c)) == (c >> 5) << 5
  {
    ShiftIsRoom(c >> 5);
  }

  lemma Rejoin(c: bv32, s: bv32, l: bv32)
    requires s == (c >> 5) << 5 && l == c & 31
    ensures Xor(s, l) == c
  {
    Halves(c, s, l);
  }

  lemma PopSum(c: bv32)
    requires c >> 5 < 0x200_0000
    ensures Xor(Shift(High(c)), Low(c)) == c
  {
    ShiftHigh(c);
    Rejoin(c, Shift(High(c)), Low(c));
  }

  lemma PopBack(c: bv32, k: nat)
    requires k < 6 && Fits(c, k + 1)
    ensures Fits(High(c), k) && IsSymbol(Low(c)) && c >> 5 < 0x200_0000
  {
    if k == 0 {
    } else if k == 1 {
    } else if k == 2 {
    } else if k == 3 {
    } else if k == 4 {
    } else {
    }
  }

  lemma Pops(c: bv32, k: nat)
    ensures BECH32.Pops(c, k)
  {
    if k < 6 && Fits(c, k + 1) {
      PopBack(c, k);
      PopSum(c);
      ShiftIs(High(c));
    }
  }

  lemma ClosedAt(c: bv32, d: bv32)
    ensures IsSymbol(c) ==> Fits(c, 6)
    ensures IsSymbol(c) && IsSymbol(d) ==> IsSymbol(Xor(c, d))
    ensures Fits(c, 6) && Fits(d, 6) ==> Fits(Xor(c, d), 6)
  {
    assert Cap(6) == 0x4000_0000;
    XorSmall(c, d);
    assert Xor(c, d) == c ^ d;
  }

  lemma ClosedAll()
    ensures forall c, d :: BECH32.Closed(c, d)
  {
    forall c, d ensures BECH32.Closed(c, d) { ClosedAt(c, d); }
  }

  lemma KeepsAll()
    ensures forall c :: BECH32.Keeps(c)
  {
    forall c ensures BECH32.Keeps(c) {
      ShiftIs(c);
      if Fits(c, 6) { ShiftKeeps(c); }
    }
  }

  lemma EdgesAll()
    ensures BECH32.Starts() && forall c :: BECH32.Empties(c)
  {
  }

  lemma Bech32Register()
    ensures Checksum.Register(BECH32)
  {
    EdgesAll();
    ClosedAll();
    KeepsAll();
    forall c, u, k: nat ensures BECH32.Pushes(c, u, k) { Pushes(c, u, k); }
    forall c, u, d, w, k: nat ensures BECH32.Separates(c, u, d, w, k) { Separates(c, u, d, w, k); }
    forall c, k: nat ensures BECH32.Pops(c, k) { Pops(c, k); }
  }

  lemma Bech32Lawful()
    ensures Lawful(BECH32)
  {
    Bech32Group();
    Bech32Register();
  }
}

/** SHA-256 as FIPS 180-4 defines it. */
module Sha256 {
  import opened Common

  type Words = w: seq<bv32> | |w| == 8 witness seq(8, _ => 0)

  // ---------------------------------------------------------------- section 4.1.2: functions

  /** The number of rounds, their constants and the operations on words that section 6.2.2 is written in. */
  datatype Ops = Ops(
    rounds: nat,
    constant: nat -> bv32,
    add: (bv32, bv32) -> bv32,
    ch: (bv32, bv32, bv32) -> bv32,
    maj: (bv32, bv32, bv32) -> bv32,
    bigSigma0: bv32 -> bv32,
    bigSigma1: bv32 -> bv32,
    smallSigma0: bv32 -> bv32,
    smallSigma1: bv32 -> bv32,
    bigEndian: (byte, byte, byte, byte) -> bv32)

  function Add(x: bv32, y: bv32): bv32 { x + y }

  function Ch(x: bv32, y: bv32, z: bv32): bv32 { (x & y) ^ (!x & z) }

  function Maj(x: bv32, y: bv32, z: bv32): bv32 { (x & y) ^ (x & z) ^ (y & z) }

  function BigSigma0(x: bv32): bv32 { ((x >> 2) | (x << 30)) ^ ((x >> 13) | (x << 19)) ^ ((x >> 22) | (x << 10)) }

  function BigSigma1(x: bv32): bv32 { ((x >> 6) | (x << 26)) ^ ((x >> 11) | (x << 21)) ^ ((x >> 25) | (x << 7)) }

  function SmallSigma0(x: bv32): bv32 { ((x >> 7) | (x << 25)) ^ ((x >> 18) | (x << 14)) ^ (x >> 3) }

  function SmallSigma1(x: bv32): bv32 { ((x >> 17) | (x << 15)) ^ ((x >> 19) | (x << 13)) ^ (x >> 10) }

  function BigEndian(p: byte, q: byte, r: byte, s: byte): bv32 {
    (p as bv32 << 24) | (q as bv32 << 16) | (r as bv32 << 8) | (s as bv32)
  }

  const STANDARD := Ops(64, Constant, Add, Ch, Maj, BigSigma0, BigSigma1, SmallSigma0, SmallSigma1, BigEndian)

  // ---------------------------------------------------------------- sections 4.2.2 and 5.3.3: constants

  function Constant(t: nat): bv32 {
    if t < 8 then
      [0x428a2f98, 0x71374491, 0xb5c0fbcf, 0xe9b5dba5, 0x3956c25b, 0x59f111f1, 0x923f82a4, 0xab1c5ed5][t]
    else if t < 16 then
      [0xd807aa98, 0x12835b01, 0x243185be, 0x550c7dc3, 0x72be5d74, 0x80deb1fe, 0x9bdc06a7, 0xc19bf174][t - 8]
    else if t < 24 then
      [0xe49b69c1, 0xefbe4786, 0x0fc19dc6, 0x240ca1cc, 0x2de92c6f, 0x4a7484aa, 0x5cb0a9dc, 0x76f988da][t - 16]
    else if t < 32 then
      [0x983e5152, 0xa831c66d, 0xb00327c8, 0xbf597fc7, 0xc6e00bf3, 0xd5a79147, 0x06ca6351, 0x14292967][t - 24]
    else if t < 40 then
      [0x27b70a85, 0x2e1b2138, 0x4d2c6dfc, 0x53380d13, 0x650a7354, 0x766a0abb, 0x81c2c92e, 0x92722c85][t - 32]
    else if t < 48 then
      [0xa2bfe8a1, 0xa81a664b, 0xc24b8b70, 0xc76c51a3, 0xd192e819, 0xd6990624, 0xf40e3585, 0x106aa070][t - 40]
    else if t < 56 then
      [0x19a4c116, 0x1e376c08, 0x2748774c, 0x34b0bcb5, 0x391c0cb3, 0x4ed8aa4a, 0x5b9cca4f, 0x682e6ff3][t - 48]
    else if t < 64 then
      [0x748f82ee, 0x78a5636f, 0x84c87814, 0x8cc70208, 0x90befffa, 0xa4506ceb, 0xbef9a3f7, 0xc67178f2][t - 56]
    else 0
  }

  const INITIAL: Words := [
    0x6a09e667, 0xbb67ae85, 0x3c6ef372, 0xa54ff53a, 0x510e527f, 0x9b05688c, 0x1f83d9ab, 0x5be0cd19
  ]

  // ---------------------------------------------------------------- section 6.2.2: one block

  type Chunk = b: seq<byte> | |b| == 64 witness seq(64, _ => 0)

  /** Word `t` of a block. */
  function Word(o: Ops, b: Chunk, t: nat): bv32
    requires t < 16
  {
    o.bigEndian(b[4 * t], b[4 * t + 1], b[4 * t + 2], b[4 * t + 3])
  }

  /** The message schedule. */
  function W(o: Ops, b: Chunk, t: nat): bv32 {
    if t < 16 then Word(o, b, t)
    else o.add(W(o, b, t - 16),
               o.add(o.add(o.smallSigma1(W(o, b, t - 2)), W(o, b, t - 7)), o.smallSigma0(W(o, b, t - 15))))
  }

  function T1(o: Ops, v: Words, k: bv32, w: bv32): bv32 {
    o.add(o.add(o.add(v[7], o.bigSigma1(v[4])), o.ch(v[4], v[5], v[6])), o.add(k, w))
  }

  function T2(o: Ops, v: Words): bv32 {
    o.add(o.bigSigma0(v[0]), o.maj(v[0], v[1], v[2]))
  }

  /** One round on the working variables a, b, ..., h. */
  function Round(o: Ops, v: Words, k: bv32, w: bv32): Words {
    var t1, t2 := T1(o, v, k, w), T2(o, v);
    [o.add(t1, t2), v[0], v[1], v[2], o.add(v[3], t1), v[4], v[5], v[6]]
  }

  /** The working variables after `t` rounds. */
  function Rounds(o: Ops, s: Words, b: Chunk, t: nat): Words {
    if t == 0 then s else Round(o, Rounds(o, s, b, t - 1), o.constant(t - 1), W(o, b, t - 1))
  }

  function Sum(o: Ops, s: Words, v: Words): Words {
    [o.add(s[0], v[0]), o.add(s[1], v[1]), o.add(s[2], v[2]), o.add(s[3], v[3]),
     o.add(s[4], v[4]), o.add(s[5], v[5]), o.add(s[6], v[6]), o.add(s[7], v[7])]
  }

  function Compress(o: Ops, s: Words, b: Chunk): Words {
    Sum(o, s, Rounds(o, s, b, o.rounds))
  }

  // ---------------------------------------------------------------- sections 5.1.1 and 6.2: messages

  /** A compression function. The source calls it through a pointer, set to the portable version or to
      one written for the processor at hand. */
  type Transform = (Words, Chunk) -> Words

  /** The chaining value after the whole blocks of `msg`. */
  function Fold(f: Transform, s: Words, msg: seq<byte>): Words
    requires |msg| % 64 == 0
  {
    if msg == [] then s else f(Fold(f, s, msg[..|msg| - 64]), msg[|msg| - 64..])
  }

  /** The fewest zero bytes that bring a message with its end marker to 8 bytes short of a whole block. */
  function ZeroBytes(n: nat): (z: nat)
    ensures z < 64 && (n + 1 + z) % 64 == 56
  {
    (55 - n) % 64
  }

  function BigEndian64(n: nat): (b: seq<byte>)
    requires n < U64_RANGE
    ensures |b| == 8
  {
    seq(8, i requires 0 <= i < 8 => ((n / Pow2(8 * (7 - i))) % 256) as byte)
  }

  /** The length field has 64 bits. The standard defines the digest of shorter messages only; the code lets it
      wrap. */
  function Pad(msg: seq<byte>): (p: seq<byte>)
    ensures |p| % 64 == 0
  {
    msg + [0x80] + seq(ZeroBytes(|msg|), _ => 0) + BigEndian64((8 * |msg|) % U64_RANGE)
  }

  function WordBytes(x: bv32): (b: seq<byte>)
    ensures |b| == 4
  {
    [(x >> 24) as bv8 as byte, ((x >> 16) & 0xff) as bv8 as byte,
     ((x >> 8) & 0xff) as bv8 as byte, (x & 0xff) as bv8 as byte]
  }

  function Output(s: Words): Hash {
    WordBytes(s[0]) + WordBytes(s[1]) + WordBytes(s[2]) + WordBytes(s[3]) +
    WordBytes(s[4]) + WordBytes(s[5]) + WordBytes(s[6]) + WordBytes(s[7])
  }

  /** The digest, given the compression function. */
  function HashWith(f: Transform, msg: seq<byte>): Hash
  {
    Output(Fold(f, INITIAL, Pad(msg)))
  }

  /** Compression built from given word operations. */
  function Compression(o: Ops): Transform { (s, b) => Compress(o, s, b) }

  /** SHA-256. */
  function Hash256(msg: seq<byte>): Hash
  {
    HashWith(Compression(STANDARD), msg)
  }
}

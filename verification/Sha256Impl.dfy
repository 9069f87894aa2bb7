/** The streaming hasher. */
module Sha256Impl {
  import opened Codec
  import opened Common
  import opened Sha256

  /** The part of a message made of whole blocks, and the rest. */
  function Whole(msg: seq<byte>): (w: seq<byte>)
    ensures |w| % 64 == 0
  {
    msg[..|msg| - |msg| % 64]
  }

  function Rest(msg: seq<byte>): (r: seq<byte>)
    ensures |r| == |msg| % 64 && msg == Whole(msg) + r
  {
    msg[|msg| - |msg| % 64..]
  }

  lemma SplitAt(msg: seq<byte>, w: seq<byte>, r: seq<byte>)
    requires msg == w + r && |w| % 64 == 0 && |r| < 64
    ensures Whole(msg) == w && Rest(msg) == r
  {
  }

  lemma Advance(start: seq<byte>, data: seq<byte>, i: nat, j: nat)
    requires i <= j <= |data|
    ensures start + data[..i] + data[i..j] == start + data[..j]
    ensures data[..|data|] == data && data[i..|data|] == data[i..]
  {
  }

  lemma WholeBlocks(n: nat, blocks: nat)
    requires blocks == n / 64
    ensures 0 <= n - 64 * blocks < 64 && (64 * blocks) % 64 == 0
  {
  }

  class CSHA256 {
    const transform: Transform
    const buf: array<byte>
    var s: Words
    var bytes: nat
    /** Everything written since the last reset. */
    ghost var written: seq<byte>

    ghost predicate Valid()
      reads this, buf
    {
      && buf.Length == 64 && bytes == |written|
      && s == Fold(transform, INITIAL, Whole(written))
      && buf[..bytes % 64] == Rest(written)
    }

    constructor (transform: Transform)
      ensures Valid() && fresh(buf) && written == [] && this.transform == transform
    {
      this.transform := transform;
      buf := new byte[64](_ => 0);
      s := INITIAL;
      bytes := 0;
      written := [];
    }

    method Reset()
      requires Valid()
      modifies this
      ensures Valid() && written == []
    {
      bytes := 0;
      s := INITIAL;
      written := [];
    }

    method CopyIn(at: nat, data: seq<byte>)
      requires at + |data| <= buf.Length
      modifies buf
      ensures buf[..at] == old(buf[..at]) && buf[at..at + |data|] == data
    {
      for k := 0 to |data|
        invariant buf[..at] == old(buf[..at]) && buf[at..at + k] == data[..k]
      {
        buf[at + k] := data[k];
        assert buf[at..at + k + 1] == buf[at..at + k] + [data[k]];
      }
      assert data[..|data|] == data;
    }

    /** Tops up a buffer that holds something, and takes the block in. */
    method FillBuffer(data: seq<byte>)
      requires Valid() && bytes % 64 != 0 && bytes % 64 + |data| == 64
      modifies this, buf
      ensures Valid() && written == old(written) + data && bytes % 64 == 0
    {
      var n := bytes % 64;
      ghost var w, r := Whole(written), Rest(written);
      CopyIn(n, data);
      assert buf[..] == r + data;
      FoldOne(transform, w, buf[..]);
      SplitAt(written + data, w + buf[..], []);
      s := transform(s, buf[..]);
      bytes := bytes + |data|;
      written := written + data;
    }

    /** Takes whole blocks straight from the input. */
    method ProcessBlocks(data: seq<byte>)
      requires Valid() && bytes % 64 == 0 && |data| % 64 == 0
      modifies this
      ensures Valid() && written == old(written) + data && bytes % 64 == 0
    {
      ghost var w := written;
      SplitAt(w, w, []);
      var blocks, k := |data| / 64, 0;
      while k < blocks
        invariant 0 <= k <= blocks && |data| == 64 * blocks && written == w && bytes == |w|
        invariant |w + data[..64 * k]| % 64 == 0 && s == Fold(transform, INITIAL, w + data[..64 * k])
      {
        TakeBlock(transform, w, data, k);
        s := transform(s, data[64 * k..64 * (k + 1)]);
        k := k + 1;
      }
      assert data[..64 * blocks] == data;
      SplitAt(w + data, w + data, []);
      bytes := bytes + |data|;
      written := written + data;
    }

    /** Keeps what does not fill a block. */
    method Stash(data: seq<byte>)
      requires Valid() && bytes % 64 + |data| < 64
      modifies this, buf
      ensures Valid() && written == old(written) + data
    {
      var n := bytes % 64;
      ghost var w, r := Whole(written), Rest(written);
      CopyIn(n, data);
      assert buf[..n + |data|] == r + data;
      SplitAt(written + data, w, r + data);
      bytes := bytes + |data|;
      written := written + data;
    }

    /** Tops up the buffer if it holds something and the data fills it. */
    method TopUp(data: seq<byte>) returns (pos: nat)
      requires Valid()
      modifies this, buf
      ensures Valid() && pos <= |data| && written == old(written) + data[..pos]
      ensures bytes % 64 == 0 || bytes % 64 + |data| - pos < 64
    {
      var n := bytes % 64;
      pos := 0;
      if n != 0 && n + |data| >= 64 {
        FillBuffer(data[..64 - n]);
        pos := 64 - n;
      }
    }

    /** Takes in the whole blocks from `from` on, as many as there are. */
    method TakeWhole(data: seq<byte>, from: nat) returns (pos: nat)
      requires Valid() && from <= |data| && (bytes % 64 == 0 || bytes % 64 + |data| - from < 64)
      modifies this
      ensures Valid() && from <= pos <= |data| && written == old(written) + data[from..pos]
      ensures bytes % 64 + |data| - pos < 64
    {
      pos := from;
      if |data| - from >= 64 {
        var blocks := (|data| - from) / 64;
        pos := from + 64 * blocks;
        WholeBlocks(|data| - from, blocks);
        ProcessBlocks(data[from..pos]);
      } else {
        assert data[from..pos] == [];
      }
    }

    /** Appends to the message; how a message is cut into writes leaves no trace. */
    method Write(data: seq<byte>)
      requires Valid()
      modifies this, buf
      ensures Valid() && written == old(written) + data
    {
      ghost var start := written;
      var filled := TopUp(data);
      var pos := TakeWhole(data, filled);
      Advance(start, data, filled, pos);
      Advance(start, data, pos, |data|);
      if pos < |data| {
        Stash(data[pos..]);
      }
    }

    /** Ends the message: writes the marker, the zeros and the length, and reads out the state. */
    method Finalize() returns (hash: Hash)
      requires Valid()
      modifies this, buf
      ensures hash == HashWith(transform, old(written))
    {
      var size := BigEndian64((8 * bytes) % U64_RANGE);
      ghost var msg := written;
      var zeros := (119 - bytes % 64) % 64;
      assert zeros == ZeroBytes(|msg|) by { ZeroCount(bytes); }
      Write([0x80] + seq(zeros, _ => 0));
      Write(size);
      assert written == Pad(msg);
      SplitAt(written, written, []);
      hash := Output(s);
    }
  }

  lemma ZeroCount(n: nat)
    ensures (119 - n % 64) % 64 == ZeroBytes(n)
  {
  }

  lemma FoldOne(f: Transform, w: seq<byte>, chunk: Chunk)
    requires |w| % 64 == 0
    ensures |w + chunk| % 64 == 0 && Fold(f, INITIAL, w + chunk) == f(Fold(f, INITIAL, w), chunk)
  {
    assert (w + chunk)[..|w + chunk| - 64] == w && (w + chunk)[|w + chunk| - 64..] == chunk;
  }

  lemma TakeBlock(f: Transform, w: seq<byte>, data: seq<byte>, k: nat)
    requires |w| % 64 == 0 && 64 * (k + 1) <= |data|
    ensures |w + data[..64 * k]| % 64 == 0 && |w + data[..64 * (k + 1)]| % 64 == 0
    ensures Fold(f, INITIAL, w + data[..64 * (k + 1)])
         == f(Fold(f, INITIAL, w + data[..64 * k]), data[64 * k..64 * (k + 1)])
  {
    var chunk := data[64 * k..64 * (k + 1)];
    assert w + data[..64 * (k + 1)] == w + data[..64 * k] + chunk;
    FoldOne(f, w + data[..64 * k], chunk);
  }

  /** However a message is cut into writes, the digest is that of the whole message. */
  method HashParts(transform: Transform, parts: seq<seq<byte>>) returns (hash: Hash)
    ensures hash == HashWith(transform, Concat(parts))
  {
    var sha := new CSHA256(transform);
    for k := 0 to |parts|
      invariant sha.Valid() && sha.transform == transform && fresh(sha) && fresh(sha.buf)
      invariant sha.written == Concat(parts[..k])
    {
      ConcatSnoc(parts[..k], parts[k]);
      assert parts[..k + 1] == parts[..k] + [parts[k]];
      sha.Write(parts[k]);
    }
    assert parts[..|parts|] == parts;
    hash := sha.Finalize();
  }

  lemma ConcatFew(a: seq<byte>, b: seq<byte>, c: seq<byte>)
    ensures Concat([a]) == a && Concat([a, b]) == a + b && Concat([a, b, c]) == a + b + c
  {
    ConcatSnoc([], a);
    ConcatSnoc([a], b);
    ConcatSnoc([a, b], c);
    assert [] + [a] == [a] && [a] + [b] == [a, b] && [a, b] + [c] == [a, b, c];
    assert Concat([]) + a == a;
  }
}

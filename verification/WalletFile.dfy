/** The wallet's set on disk. Only the set is saved; the queue is rebuilt from it, in the order of the set. */
module WalletFile {
  import opened Common
  import opened Codec
  import opened Serialization
  import opened Identifiers
  import opened Coins
  import opened Messages
  import SerializerImpl

  // ---------------------------------------------------------------- the order of the set

  /** Byte strings of one length are compared from the front. */
  predicate LexBefore(x: seq<byte>, y: seq<byte>)
    requires |x| == |y|
  {
    x != [] && (x[0] < y[0] || (x[0] == y[0] && LexBefore(x[1..], y[1..])))
  }

  /** By transaction, and then by position. */
  predicate Before(p: OutPoint, q: OutPoint) {
    LexBefore(p.txId, q.txId) || (p.txId == q.txId && p.index < q.index)
  }

  lemma {:induction false} LexTotal(x: seq<byte>, y: seq<byte>)
    requires |x| == |y|
    ensures x == y <==> !LexBefore(x, y) && !LexBefore(y, x)
    ensures !(LexBefore(x, y) && LexBefore(y, x))
  {
    if x != [] {
      LexTotal(x[1..], y[1..]);
      assert x == [x[0]] + x[1..] && y == [y[0]] + y[1..];
    }
  }

  lemma {:induction false} LexTransitive(x: seq<byte>, y: seq<byte>, z: seq<byte>)
    requires |x| == |y| == |z| && LexBefore(x, y) && LexBefore(y, z)
    ensures LexBefore(x, z)
  {
    if x[0] == y[0] == z[0] {
      LexTransitive(x[1..], y[1..], z[1..]);
    }
  }

  lemma BeforeTotal(p: OutPoint, q: OutPoint)
    ensures p == q <==> !Before(p, q) && !Before(q, p)
    ensures !(Before(p, q) && Before(q, p))
  {
    LexTotal(p.txId, q.txId);
  }

  lemma BeforeTransitive(p: OutPoint, q: OutPoint, r: OutPoint)
    requires Before(p, q) && Before(q, r)
    ensures Before(p, r)
  {
    if LexBefore(p.txId, q.txId) && LexBefore(q.txId, r.txId) {
      LexTransitive(p.txId, q.txId, r.txId);
    }
  }

  ghost predicate Sorted(q: seq<Input>) {
    forall i, j | 0 <= i < j < |q| :: Before(q[i].prevout, q[j].prevout)
  }

  lemma SortedDistinct(q: seq<Input>)
    requires Sorted(q)
    ensures Distinct(Points(q))
  {
    forall i, j | 0 <= i < j < |q| ensures Points(q)[i] != Points(q)[j] {
      BeforeTotal(q[i].prevout, q[j].prevout);
    }
  }

  ghost predicate IsFirst(s: set<OutPoint>, p: OutPoint) {
    p in s && forall q | q in s && q != p :: Before(p, q)
  }

  lemma {:induction false} FirstExists(s: set<OutPoint>)
    requires s != {}
    ensures exists p :: IsFirst(s, p)
  {
    var x :| x in s;
    var rest := s - {x};
    assert forall q | q in s :: q == x || q in rest;
    if rest == {} {
      assert IsFirst(s, x);
    } else {
      FirstExists(rest);
      var p :| IsFirst(rest, p);
      BeforeTotal(p, x);
      if Before(p, x) {
        assert IsFirst(s, p);
      } else {
        forall q | q in s && q != x ensures Before(x, q) {
          if q != p { BeforeTransitive(x, p, q); }
        }
        assert IsFirst(s, x);
      }
    }
  }

  // ---------------------------------------------------------------- one set, one order

  /** A list of all members of a set. */
  ghost predicate ListsSet(q: seq<Input>, u: map<OutPoint, Input>) {
    Distinct(Points(q)) && Index(q) == u
  }

  lemma {:induction false} IndexAt(q: seq<Input>, k: nat)
    requires Distinct(Points(q)) && k < |q|
    ensures q[k].prevout in Index(q) && Index(q)[q[k].prevout] == q[k]
  {
    var n := |q| - 1;
    assert q == q[..n] + [q[n]];
    IndexSnoc(q[..n], q[n]);
    if k < n {
      DistinctSlice(Points(q), 0, n);
      assert Points(q)[0..n] == Points(q[..n]);
      IndexAt(q[..n], k);
      assert Points(q)[k] != Points(q)[n];
    }
  }

  lemma MemberAt(q: seq<Input>, u: map<OutPoint, Input>, p: OutPoint)
    requires ListsSet(q, u) && p in u
    ensures exists k :: 0 <= k < |q| && q[k].prevout == p && q[k] == u[p]
  {
    IndexKeys(q);
    var k :| 0 <= k < |q| && Points(q)[k] == p;
    IndexAt(q, k);
  }

  /** The queue without the member at `k`. */
  function Drop(q: seq<Input>, k: nat): seq<Input>
    requires k < |q|
  {
    q[..k] + q[k + 1..]
  }

  lemma DropLists(q: seq<Input>, u: map<OutPoint, Input>, k: nat)
    requires ListsSet(q, u) && k < |q|
    ensures ListsSet(Drop(q, k), u - {q[k].prevout})
    ensures multiset(q) == multiset(Drop(q, k)) + multiset{q[k]}
    ensures Total(q) == Total(Drop(q, k)) + q[k].data.value
  {
    var r, p := Drop(q, k), q[k].prevout;
    forall i, j | 0 <= i < j < |r| ensures Points(r)[i] != Points(r)[j] {
      assert Points(r)[i] == Points(q)[if i < k then i else i + 1];
      assert Points(r)[j] == Points(q)[if j < k then j else j + 1];
    }
    DropIndex(q, u, k);
    assert q == q[..k] + [q[k]] + q[k + 1..];
    TotalAppend(q[..k] + [q[k]], q[k + 1..]);
    TotalSnoc(q[..k], q[k]);
    TotalAppend(q[..k], q[k + 1..]);
  }

  lemma DropIndex(q: seq<Input>, u: map<OutPoint, Input>, k: nat)
    requires ListsSet(q, u) && k < |q| && Distinct(Points(Drop(q, k)))
    ensures Index(Drop(q, k)) == u - {q[k].prevout}
  {
    var r, p := Drop(q, k), q[k].prevout;
    IndexKeys(q);
    IndexKeys(r);
    forall x | x in Index(r) ensures x in u && x != p && Index(r)[x] == u[x] {
      var j :| 0 <= j < |r| && Points(r)[j] == x;
      var i := if j < k then j else j + 1;
      assert r[j] == q[i];
      IndexAt(r, j);
      IndexAt(q, i);
      assert Points(q)[i] != Points(q)[k];
    }
    forall x | x in u && x != p ensures x in Index(r) {
      var i :| 0 <= i < |q| && Points(q)[i] == x;
      assert r[if i < k then i else i - 1] == q[i];
      assert Points(r)[if i < k then i else i - 1] == x;
    }
  }

  /** Two lists of one set are permutations of each other, and worth the same. */
  lemma {:induction false} SameSet(q: seq<Input>, r: seq<Input>, u: map<OutPoint, Input>)
    requires ListsSet(q, u) && ListsSet(r, u)
    ensures multiset(q) == multiset(r) && |q| == |r| && Total(q) == Total(r)
    decreases |q|
  {
    IndexKeys(q);
    IndexKeys(r);
    if q == [] {
      assert r == [] by { if r != [] { IndexAt(r, 0); } }
    } else {
      var n := |q| - 1;
      IndexAt(q, n);
      MemberAt(r, u, q[n].prevout);
      var k :| 0 <= k < |r| && r[k].prevout == q[n].prevout && r[k] == u[q[n].prevout];
      DropLists(q, u, n);
      DropLists(r, u, k);
      SameSet(Drop(q, n), Drop(r, k), u - {q[n].prevout});
      assert |multiset(q)| == |q| && |multiset(r)| == |r|;
    }
  }

  /** A set has one sorted list. */
  lemma {:induction false} SortedOnce(q: seq<Input>, r: seq<Input>, u: map<OutPoint, Input>)
    requires ListsSet(q, u) && ListsSet(r, u) && Sorted(q) && Sorted(r)
    ensures q == r
    decreases |q|
  {
    SameSet(q, r, u);
    if q != [] {
      SameFirst(q, r, u);
      SortedTail(q, u);
      SortedTail(r, u);
      SortedOnce(q[1..], r[1..], u - {q[0].prevout});
      assert q == [q[0]] + q[1..] && r == [r[0]] + r[1..];
    }
  }

  lemma SortedTail(q: seq<Input>, u: map<OutPoint, Input>)
    requires ListsSet(q, u) && Sorted(q) && q != []
    ensures ListsSet(q[1..], u - {q[0].prevout}) && Sorted(q[1..])
  {
    DropLists(q, u, 0);
    assert Drop(q, 0) == q[1..];
  }

  lemma SameFirst(q: seq<Input>, r: seq<Input>, u: map<OutPoint, Input>)
    requires ListsSet(q, u) && ListsSet(r, u) && Sorted(q) && Sorted(r) && q != [] && r != []
    ensures q[0] == r[0]
  {
    IndexAt(q, 0);
    IndexAt(r, 0);
    MemberAt(q, u, r[0].prevout);
    MemberAt(r, u, q[0].prevout);
    var i :| 0 <= i < |q| && q[i].prevout == r[0].prevout && q[i] == u[r[0].prevout];
    var j :| 0 <= j < |r| && r[j].prevout == q[0].prevout && r[j] == u[q[0].prevout];
    BeforeTotal(q[0].prevout, r[0].prevout);
  }

  // ---------------------------------------------------------------- saving and loading a purse

  /** What is in memory after a wallet with this purse was saved and loaded. */
  ghost predicate Reloaded(p: Purse, r: Purse) {
    && r.utxos == p.utxos && InStep(r) && Sorted(r.queue)
  }

  /** A reloaded wallet is in step and has the same set and balance; its queue is a permutation of the one that
      was saved, and the same queue if and only if that one was sorted by out-point. */
  lemma ReloadedIs(p: Purse, r: Purse)
    requires InStep(p) && Reloaded(p, r)
    ensures r.balance == p.balance && multiset(r.queue) == multiset(p.queue)
    ensures r.queue == p.queue <==> Sorted(p.queue)
  {
    SameSet(p.queue, r.queue, p.utxos);
    if Sorted(p.queue) {
      SortedOnce(p.queue, r.queue, p.utxos);
    }
  }

  // ---------------------------------------------------------------- the bytes

  const UTXOS := OrderedSet(INPUT)

  function InputLayouts(q: seq<Input>): (cs: seq<Layout>)
    ensures |cs| == |q|
  {
    seq(|q|, k requires 0 <= k < |q| => InputLayout(q[k]))
  }

  lemma InputValuesDiffer(i: Input, j: Input)
    requires Abs(InputLayout(i)) == Abs(InputLayout(j))
    ensures i == j
  {
    AbsInput(i);
    AbsInput(j);
  }

  lemma SetTyped(q: seq<Input>)
    requires Distinct(Points(q)) && |q| < U64_RANGE
    ensures Typed(UTXOS, LSet(InputLayouts(q)))
  {
    var cs := InputLayouts(q);
    forall k | 0 <= k < |cs| ensures Typed(INPUT, cs[k]) { InputTyped(q[k]); }
    forall i, j | 0 <= i < j < |cs| ensures AbsAll(cs)[i] != AbsAll(cs)[j] {
      if Abs(cs[i]) == Abs(cs[j]) { InputValuesDiffer(q[i], q[j]); }
      assert Points(q)[i] != Points(q)[j];
    }
  }

  /** The file holds the set, written in its order. */
  ghost predicate Saves(file: seq<byte>, u: map<OutPoint, Input>) {
    exists q: seq<Input> :: SavesList(file, u, q)
  }

  ghost predicate SavesList(file: seq<byte>, u: map<OutPoint, Input>, q: seq<Input>) {
    && Sorted(q) && ListsSet(q, u) && |q| < U64_RANGE
    && Typed(UTXOS, LSet(InputLayouts(q))) && file == Encode(UTXOS, LSet(InputLayouts(q)))
  }

  /** Walks a set in its order. */
  method Walk(u: map<OutPoint, Input>) returns (q: seq<Input>)
    requires forall p | p in u :: u[p].prevout == p
    ensures Sorted(q) && ListsSet(q, u)
  {
    q := [];
    var left := u.Keys;
    ghost var done: map<OutPoint, Input> := map[];
    while left != {}
      invariant left <= u.Keys && Sorted(q) && ListsSet(q, done) && done == u - left
      invariant forall k, p | 0 <= k < |q| && p in left :: Before(q[k].prevout, p)
      decreases left
    {
      FirstExists(left);
      var p :| p in left && forall x | x in left && x != p :: Before(p, x);
      WalkOne(q, done, u, left, p);
      q, done, left := q + [u[p]], done[p := u[p]], left - {p};
    }
  }

  lemma WalkOne(q: seq<Input>, done: map<OutPoint, Input>, u: map<OutPoint, Input>, left: set<OutPoint>, p: OutPoint)
    requires (forall x | x in u :: u[x].prevout == x) && left <= u.Keys && done == u - left && IsFirst(left, p)
    requires Sorted(q) && ListsSet(q, done) && forall k, x | 0 <= k < |q| && x in left :: Before(q[k].prevout, x)
    ensures var r := q + [u[p]];
            && Sorted(r) && ListsSet(r, done[p := u[p]]) && done[p := u[p]] == u - (left - {p})
            && forall k, x | 0 <= k < |r| && x in left - {p} :: Before(r[k].prevout, x)
  {
    var r := q + [u[p]];
    IndexSnoc(q, u[p]);
    SortedDistinct(r);
  }

  method SaveSet(u: map<OutPoint, Input>) returns (file: seq<byte>)
    requires (forall p | p in u :: u[p].prevout == p) && |u| < U64_RANGE
    ensures Saves(file, u)
  {
    var q := Walk(u);
    ListSize(q, u);
    SetTyped(q);
    file := SerializerImpl.MakeBuffer(UTXOS, LSet(InputLayouts(q)), 0);
    assert SavesList(file, u, q);
  }

  lemma {:induction false} ListSize(q: seq<Input>, u: map<OutPoint, Input>)
    requires ListsSet(q, u)
    ensures |q| == |u|
  {
    if q == [] {
      assert u == map[];
    } else {
      var n := |q| - 1;
      DropLists(q, u, n);
      IndexAt(q, n);
      ListSize(Drop(q, n), u - {q[n].prevout});
      assert u.Keys == (u - {q[n].prevout}).Keys + {q[n].prevout};
      assert |u| == |u.Keys| && |u - {q[n].prevout}| == |(u - {q[n].prevout}).Keys|;
    }
  }

  // ---------------------------------------------------------------- reading

  function NumberFrom(v: Value): u64 { if v.Number? && v.n < U64_RANGE then v.n else 0 }

  function InputFrom(v: Value): Input {
    if v.Two? && v.a.Two? && v.b.Two?
    then Input(OutPoint(HashFrom(v.a.a), NumberFrom(v.a.b)), Output(HashFrom(v.b.a), NumberFrom(v.b.b)))
    else Input(OutPoint(NoHash(), 0), Output(NoHash(), 0))
  }

  lemma InputFromValue(i: Input)
    ensures InputFrom(Abs(InputLayout(i))) == i
  {
    AbsInput(i);
  }

  /** The values that were read, by their out-point. */
  ghost predicate Gathered(members: set<Value>, u: map<OutPoint, Input>) {
    && (forall v | v in members :: InputFrom(v).prevout in u)
    && (forall p | p in u :: u[p].prevout == p && exists v :: v in members && InputFrom(v) == u[p])
  }

  method Gather(members: set<Value>) returns (u: map<OutPoint, Input>)
    ensures Gathered(members, u)
  {
    u := map[];
    var left := members;
    while left != {}
      invariant left <= members && Gathered(members - left, u)
      decreases left
    {
      var v :| v in left;
      var i := InputFrom(v);
      ghost var seen := members - left;
      left := left - {v};
      assert members - left == seen + {v};
      if i.prevout !in u {
        u := u[i.prevout := i];
      }
    }
    assert members - left == members;
  }

  lemma GatheredIs(q: seq<Input>, u: map<OutPoint, Input>, w: map<OutPoint, Input>)
    requires ListsSet(q, u) && Gathered(Members(AbsAll(InputLayouts(q))), w)
    ensures w == u
  {
    var vs := AbsAll(InputLayouts(q));
    IndexKeys(q);
    forall p | p in u ensures p in w {
      MemberAt(q, u, p);
      var k :| 0 <= k < |q| && q[k].prevout == p && q[k] == u[p];
      assert vs[k] in Members(vs);
      InputFromValue(q[k]);
    }
    forall p | p in w ensures p in u && w[p] == u[p] {
      var v :| v in Members(vs) && InputFrom(v) == w[p];
      var k :| 0 <= k < |vs| && vs[k] == v;
      InputFromValue(q[k]);
      IndexAt(q, k);
    }
  }

  lemma SavedDecodes(file: seq<byte>, u: map<OutPoint, Input>, q: seq<Input>)
    requires SavesList(file, u, q)
    ensures Readable(UTXOS) && Decode(UTXOS, file) == Some((Bag(Members(AbsAll(InputLayouts(q)))), []))
  {
    var c := LSet(InputLayouts(q));
    RoundTrip(UTXOS, c);
    assert Encode(UTXOS, c) + [] == file;
    assert Decoder(UTXOS)(file) == Some((Abs(c), []));
  }

  /** Reads a set back. */
  method LoadSet(file: seq<byte>) returns (w: map<OutPoint, Input>)
    ensures forall p | p in w :: w[p].prevout == p
    ensures forall u | Saves(file, u) :: w == u
  {
    var v := SerializerImpl.FromBuffer(UTXOS, file, 1);
    var members := if v.Some? && v.value.Bag? then v.value.members else {};
    w := Gather(members);
    forall u | Saves(file, u) ensures w == u {
      var q: seq<Input> :| SavesList(file, u, q);
      SavedDecodes(file, u, q);
      GatheredIs(q, u, w);
    }
  }
}

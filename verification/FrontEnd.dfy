/** The front end of an atomizer replica: it gathers shard notifications until every input of a
    transaction is attested, then hands the transaction on with the oldest height it relied on. */
module FrontEnd {
  import opened Common
  import opened Shard

  /** The sentinels whose signatures are accepted. Signature verification itself is a parameter. */
  datatype Sentinels = Sentinels(
    keys: set<PubKey>,
    threshold: nat,
    verify: (CompactTx, PubKey, Signature) -> bool
  )

  predicate CheckAttestations(c: Sentinels, tx: CompactTx) {
    && |tx.attestations| >= c.threshold
    && (forall k | k in tx.attestations ::
          k in c.keys && c.verify(tx.(attestations := map[]), k, tx.attestations[k]))
  }

  /** The signature of `k` on `tx` is one that counts. */
  predicate Vouches(c: Sentinels, tx: CompactTx, k: PubKey, sig: Signature) {
    k in c.keys && c.verify(tx.(attestations := map[]), k, sig)
  }

  /** However the keys in `bad` were used, if there are fewer of them than the threshold then some other sentinel
      has signed what passes. */
  lemma Quorum(c: Sentinels, tx: CompactTx, bad: set<PubKey>)
    requires CheckAttestations(c, tx) && |bad| < c.threshold
    ensures exists k :: k in tx.attestations && k !in bad && Vouches(c, tx, k, tx.attestations[k])
  {
    var signed := tx.attestations.Keys;
    if signed <= bad {
      SubsetSize(signed, bad);
    }
    var k :| k in signed && k !in bad;
    assert Vouches(c, tx, k, tx.attestations[k]);
  }

  /** The threshold is no higher than that: that many sentinels suffice. */
  lemma QuorumSuffices(c: Sentinels, tx: CompactTx, signed: map<PubKey, Signature>)
    requires |signed| >= c.threshold && forall k | k in signed :: Vouches(c, tx, k, signed[k])
    ensures CheckAttestations(c, tx.(attestations := signed))
  {
    var t := tx.(attestations := signed);
    assert t.(attestations := map[]) == tx.(attestations := map[]);
    forall k | k in t.attestations ensures Vouches(c, t, k, t.attestations[k]) { }
  }

  /** One attestation too few, a key that belongs to no sentinel, or one false signature, and the whole is refused,
      whatever the others are. */
  lemma Refused(c: Sentinels, tx: CompactTx)
    requires || |tx.attestations| < c.threshold
             || exists k :: k in tx.attestations && !Vouches(c, tx, k, tx.attestations[k])
    ensures !CheckAttestations(c, tx)
  {
  }

  /** The height recorded for each attested input. */
  datatype Gathering = Gathering(tx: CompactTx, heights: map<nat, nat>)

  datatype Aggregate = Aggregate(tx: CompactTx, oldest: nat)

  datatype State = State(pending: map<Hash, Gathering>, complete: seq<Aggregate>)

  const Initial := State(map[], [])

  /** An input keeps the height at which it was first attested. */
  function Attest(heights: map<nat, nat>, attested: set<nat>, height: nat): map<nat, nat> {
    map i | i in heights.Keys + attested :: if i in heights then heights[i] else height
  }

  ghost predicate IsOldest(heights: map<nat, nat>, h: nat) {
    h in heights.Values && forall i | i in heights :: h <= heights[i]
  }

  /** The lowest recorded height, or 0 when nothing is recorded. */
  ghost function Oldest(heights: map<nat, nat>): nat {
    if exists h: nat :: IsOldest(heights, h) then
      var h: nat :| IsOldest(heights, h); h
    else 0
  }

  ghost function Gather(s: State, n: Notification): Gathering {
    if n.tx.id in s.pending then
      var g := s.pending[n.tx.id];
      Gathering(g.tx, Attest(g.heights, n.attested, n.height))
    else Gathering(n.tx, Attest(map[], n.attested, n.height))
  }

  ghost function TxNotify(c: Sentinels, s: State, n: Notification): State {
    if !CheckAttestations(c, n.tx) then s
    else
      var g := Gather(s, n);
      if |g.heights| != |g.tx.inputs| then s.(pending := s.pending[n.tx.id := g])
      else State(s.pending - {n.tx.id}, s.complete + [Aggregate(g.tx, Oldest(g.heights))])
  }

  lemma {:induction false} OldestExists(heights: map<nat, nat>)
    requires heights != map[]
    ensures IsOldest(heights, Oldest(heights))
    decreases |heights|
  {
    var k :| k in heights;
    var rest := heights - {k};
    assert heights[k] in heights.Values;
    assert forall i | i in heights :: i == k || (i in rest && rest[i] == heights[i]);
    if rest == map[] {
      assert IsOldest(heights, heights[k]);
    } else {
      OldestExists(rest);
      var h := Oldest(rest);
      var i :| i in rest && rest[i] == h;
      assert heights[i] in heights.Values;
      assert IsOldest(heights, if h < heights[k] then h else heights[k]);
    }
  }

  /** Attesting again, or attesting more, never makes what a transaction relies on younger. */
  lemma OldestNeverRises(heights: map<nat, nat>, attested: set<nat>, height: nat)
    requires heights != map[]
    ensures Oldest(Attest(heights, attested, height)) <= Oldest(heights)
  {
    var more := Attest(heights, attested, height);
    OldestExists(heights);
    var i :| i in heights && heights[i] == Oldest(heights);
    assert i in more && more[i] == heights[i];
    OldestExists(more);
  }

  // ---------------------------------------------------------------- the scan for the oldest height

  /** What the scan returns when it meets the heights in this order; 0 also stands for "none yet". */
  function Scan(order: seq<nat>): nat {
    if order == [] then 0
    else
      var oldest, h := Scan(order[..|order| - 1]), order[|order| - 1];
      if oldest == 0 || h < oldest then h else oldest
  }

  ghost predicate Minimum(order: seq<nat>, m: nat) {
    m in order && forall h | h in order :: m <= h
  }

  /** The scan yields the minimum exactly when no height is 0 or a 0 comes last. */
  lemma {:induction false} ScanIsMinimum(order: seq<nat>)
    requires order != []
    ensures Minimum(order, Scan(order)) <==> 0 !in order || order[|order| - 1] == 0
    ensures Scan(order) == 0 <==> order[|order| - 1] == 0
    ensures 0 !in order ==> Minimum(order, Scan(order))
  {
    var n := |order| - 1;
    var init, h := order[..n], order[n];
    assert order == init + [h];
    if init != [] {
      ScanIsMinimum(init);
      assert forall x | x in init :: x in order;
    }
  }

  /** With a height of 0 in the set, the result depends on the iteration order. */
  lemma ScanOrderDependence()
    ensures Scan([0, 5]) == 5 && Scan([5, 0]) == 0
  {
    assert [0, 5][..1] == [0] && [5, 0][..1] == [5];
    assert Scan([0]) == 0 && Scan([5]) == 5;
  }

  /** The recorded heights, in the order of the keys `ks`. */
  function HeightsBy(heights: map<nat, nat>, ks: seq<nat>): (hs: seq<nat>)
    requires forall k | k in ks :: k in heights
    ensures |hs| == |ks| && forall i | 0 <= i < |ks| :: hs[i] == heights[ks[i]]
  {
    if ks == [] then []
    else
      var n := |ks| - 1;
      HeightsBy(heights, ks[..n]) + [heights[ks[n]]]
  }

  /** `ks` lists the keys of `heights`, each once. */
  ghost predicate Lists(ks: seq<nat>, heights: map<nat, nat>) {
    Distinct(ks) && (forall k | k in ks :: k in heights) && forall k | k in heights :: k in ks
  }

  /** Some order of the recorded heights makes the scan return `oldest`. */
  ghost predicate Scanned(heights: map<nat, nat>, oldest: nat) {
    exists ks: seq<nat> :: Lists(ks, heights) && oldest == Scan(HeightsBy(heights, ks))
  }

  /** Unless a height is 0, every order gives the oldest. */
  lemma ScannedIsOldest(heights: map<nat, nat>, oldest: nat)
    requires Scanned(heights, oldest) && forall i | i in heights :: heights[i] != 0
    ensures oldest == Oldest(heights)
  {
    var ks: seq<nat> :| Lists(ks, heights) && oldest == Scan(HeightsBy(heights, ks));
    if ks != [] {
      assert ks[0] in ks;
      OldestExists(heights);
      NoZero(heights, ks);
      ScanIsMinimum(HeightsBy(heights, ks));
      MinimumIsOldest(heights, ks, oldest);
    } else {
      assert heights == map[];
    }
  }

  lemma NoZero(heights: map<nat, nat>, ks: seq<nat>)
    requires Lists(ks, heights) && forall i | i in heights :: heights[i] != 0
    ensures 0 !in HeightsBy(heights, ks)
  {
    assert forall i | 0 <= i < |ks| :: ks[i] in ks;
  }

  lemma MinimumIsOldest(heights: map<nat, nat>, ks: seq<nat>, oldest: nat)
    requires Lists(ks, heights) && Minimum(HeightsBy(heights, ks), oldest)
    ensures IsOldest(heights, oldest)
  {
    var hs := HeightsBy(heights, ks);
    var j :| 0 <= j < |hs| && hs[j] == oldest;
    assert ks[j] in ks && heights[ks[j]] in heights.Values;
    forall i | i in heights ensures oldest <= heights[i] {
      var k :| 0 <= k < |ks| && ks[k] == i;
      assert hs[k] in hs;
    }
  }
}
